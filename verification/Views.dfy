/** What the tables hold for one log file, as ordered lists: the bridge between the repository and the collector. */
module Views {
  import opened Prelude
  import opened Models
  import opened Tables
  import opened TableOps
  import Chunking
  import Collector
  import FastPath
  import Sorting

  ghost function MaxOf(s: set<int>): (m: int)
    requires |s| > 0
    ensures m in s && forall x :: x in s ==> x <= m
  {
    var x := Pick(s);
    var rest := s - {x};
    if |rest| == 0 then
      assert s == {x};
      x
    else
      var m := MaxOf(rest);
      assert forall y :: y in s ==> y == x || y in rest;
      if x > m then x else m
  }

  ghost function SortedKeys(s: set<int>): seq<int> {
    if |s| == 0 then [] else SortedKeys(s - {MaxOf(s)}) + [MaxOf(s)]
  }

  ghost predicate AscendingKeys(r: seq<int>) {
    forall i, j :: 0 <= i < j < |r| ==> r[i] < r[j]
  }

  lemma {:induction false} SortedKeysFacts(s: set<int>)
    ensures |SortedKeys(s)| == |s| && AscendingKeys(SortedKeys(s))
    ensures forall x :: x in SortedKeys(s) <==> x in s
  {
    if |s| > 0 {
      var m := MaxOf(s);
      var front := SortedKeys(s - {m});
      SortedKeysFacts(s - {m});
      forall i | 0 <= i < |front| ensures front[i] < m {
        assert front[i] in front;
      }
    }
  }

  // ---- Entries of a log file, by line ----

  function LineIds(t: Tables, file: string): map<int, string> {
    if file in t.entriesByLogFile then t.entriesByLogFile[file] else map[]
  }

  const NO_ENTRY := LogEntry("", "", 0, "", "")

  function EntryOf(t: Tables, id: string): LogEntry {
    if id in t.entries then t.entries[id] else NO_ENTRY
  }

  ghost function EntryRows(t: Tables, file: string): seq<LogEntry> {
    var ids := LineIds(t, file);
    var keys := SortedKeys(ids.Keys);
    seq(|keys|, i requires 0 <= i < |keys| => if keys[i] in ids then EntryOf(t, ids[keys[i]]) else NO_ENTRY)
  }

  predicate IsEntryOf(t: Tables, file: string, e: LogEntry) {
    e.id in t.entries && t.entries[e.id] == e && e.logFileId == file
  }

  lemma {:induction false} EntryRowsFacts(t: Tables, file: string)
    requires Consistent(t)
    ensures Chunking.StrictlyAscending(EntryRows(t, file))
    ensures |EntryRows(t, file)| == |LineIds(t, file)|
    ensures forall e :: e in EntryRows(t, file) <==> IsEntryOf(t, file, e)
  {
    var ids, rows := LineIds(t, file), EntryRows(t, file);
    var keys := SortedKeys(ids.Keys);
    SortedKeysFacts(ids.Keys);
    forall i | 0 <= i < |keys| ensures rows[i].lineNumber == keys[i] && IsEntryOf(t, file, rows[i]) {
      assert keys[i] in ids;
      assert LineResolves(t.entries, t.entriesByLogFile, file, keys[i]);
      assert EntryListed(t.entries, t.entriesByLogFile, ids[keys[i]]);
    }
    forall i, j | 0 <= i < j < |rows| ensures Chunking.Before(rows, i, j) {
    }
    forall e | IsEntryOf(t, file, e) ensures e in rows {
      assert EntryListed(t.entries, t.entriesByLogFile, e.id);
      assert e.lineNumber in keys;
      var i :| 0 <= i < |keys| && keys[i] == e.lineNumber;
      assert rows[i] == e;
    }
  }

  const LineOf: LogEntry -> int := (e: LogEntry) => e.lineNumber

  predicate EarlierLine(a: LogEntry, b: LogEntry) {
    a.lineNumber < b.lineNumber
  }

  /** The rows of a log file looked up in any order of their lines. */
  ghost predicate RowsInOrder(t: Tables, file: string, lines: seq<int>, rows: seq<LogEntry>) {
    |rows| == |lines| &&
    forall i :: 0 <= i < |lines| ==> lines[i] in LineIds(t, file) && rows[i] == EntryOf(t, LineIds(t, file)[lines[i]])
  }

  lemma {:induction false} ListedIdsResolve(t: Tables, file: string, lines: seq<int>)
    requires Consistent(t) && Elements(lines) == LineIds(t, file).Keys
    ensures forall i :: 0 <= i < |lines| ==> lines[i] in LineIds(t, file) && LineIds(t, file)[lines[i]] in t.entries
  {
    forall i | 0 <= i < |lines| ensures lines[i] in LineIds(t, file) && LineIds(t, file)[lines[i]] in t.entries {
      assert lines[i] in Elements(lines);
      assert LineResolves(t.entries, t.entriesByLogFile, file, lines[i]);
    }
  }

  lemma {:induction false} RowsInOrderFacts(t: Tables, file: string, lines: seq<int>, rows: seq<LogEntry>)
    requires Consistent(t) && RowsInOrder(t, file, lines, rows)
    requires NoDuplicates(lines) && Elements(lines) == LineIds(t, file).Keys
    ensures Sorting.DistinctKeys(rows, LineOf)
    ensures forall e :: e in rows <==> IsEntryOf(t, file, e)
  {
    forall i | 0 <= i < |rows| ensures rows[i].lineNumber == lines[i] && IsEntryOf(t, file, rows[i]) {
      assert LineResolves(t.entries, t.entriesByLogFile, file, lines[i]);
      assert EntryListed(t.entries, t.entriesByLogFile, LineIds(t, file)[lines[i]]);
    }
    forall i, j | 0 <= i < j < |rows| ensures Sorting.KeysDiffer(rows, LineOf, i, j) {
    }
    forall e | IsEntryOf(t, file, e) ensures e in rows {
      assert EntryListed(t.entries, t.entriesByLogFile, e.id);
      assert e.lineNumber in Elements(lines);
      var i :| 0 <= i < |lines| && lines[i] == e.lineNumber;
      assert rows[i] == e;
    }
  }

  /** Sorting by line number undoes whatever order the rows were gathered in. */
  lemma {:induction false} SortedRowsAreEntryRows(t: Tables, file: string, lines: seq<int>, rows: seq<LogEntry>)
    requires Consistent(t) && RowsInOrder(t, file, lines, rows)
    requires NoDuplicates(lines) && Elements(lines) == LineIds(t, file).Keys
    ensures Sorting.Sort(rows, EarlierLine) == EntryRows(t, file)
  {
    var sorted := Sorting.Sort(rows, EarlierLine);
    RowsInOrderFacts(t, file, lines, rows);
    Sorting.SortSorts(rows, EarlierLine);
    Sorting.SortedDistinctKeys(rows, EarlierLine, LineOf);
    forall i, j | 0 <= i < j < |sorted| ensures Chunking.Before(sorted, i, j) {
      assert Sorting.InOrder(sorted, EarlierLine, i, j) && Sorting.KeysDiffer(sorted, LineOf, i, j);
    }
    forall e ensures e in sorted <==> IsEntryOf(t, file, e) {
      Sorting.SameElements(rows, EarlierLine, e);
    }
    EntryRowsAre(t, file, sorted);
  }

  lemma {:induction false} RowsFollowKeys(t: Tables, file: string)
    requires Consistent(t)
    ensures var keys, rows := SortedKeys(LineIds(t, file).Keys), EntryRows(t, file);
            |rows| == |keys| && forall i :: 0 <= i < |keys| ==> rows[i].lineNumber == keys[i]
  {
    var keys, rows := SortedKeys(LineIds(t, file).Keys), EntryRows(t, file);
    SortedKeysFacts(LineIds(t, file).Keys);
    forall i | 0 <= i < |keys| ensures rows[i].lineNumber == keys[i] {
      assert keys[i] in keys;
      assert LineResolves(t.entries, t.entriesByLogFile, file, keys[i]);
    }
  }

  /** The greatest line number of the index is the last row's. */
  lemma {:induction false} MaxLineIs(t: Tables, file: string, m: int)
    requires Consistent(t) && m >= 0 && (m == 0 || m in LineIds(t, file))
    requires forall line :: line in LineIds(t, file) ==> line <= m
    ensures m == Collector.MaxLine(EntryRows(t, file))
  {
    var keys, rows := SortedKeys(LineIds(t, file).Keys), EntryRows(t, file);
    SortedKeysFacts(LineIds(t, file).Keys);
    RowsFollowKeys(t, file);
    if m in LineIds(t, file) {
      var i :| 0 <= i < |keys| && keys[i] == m;
    }
    if keys != [] {
      assert keys[|keys| - 1] in keys;
    }
  }

  /** A strictly ascending list is determined by its members. */
  lemma {:induction false} SameRows(a: seq<LogEntry>, b: seq<LogEntry>)
    requires Chunking.StrictlyAscending(a) && Chunking.StrictlyAscending(b)
    requires forall e :: e in a <==> e in b
    ensures a == b
  {
    assert (a != [] ==> a[0] in b) && (b != [] ==> b[0] in a);
    if a != [] && b != [] {
      var m, n := |a| - 1, |b| - 1;
      LastRowsAgree(a, b);
      FrontKeepsAscending(a);
      FrontKeepsAscending(b);
      forall e ensures e in a[..m] <==> e in b[..n] {
        FrontMembers(a, e);
        FrontMembers(b, e);
      }
      SameRows(a[..m], b[..n]);
      assert a == a[..m] + [a[m]] && b == b[..n] + [b[n]];
    }
  }

  lemma {:induction false} LastRowsAgree(a: seq<LogEntry>, b: seq<LogEntry>)
    requires Chunking.StrictlyAscending(a) && Chunking.StrictlyAscending(b) && a != [] && b != []
    requires forall e :: e in a <==> e in b
    ensures a[|a| - 1] == b[|b| - 1]
  {
    var m, n := |a| - 1, |b| - 1;
    assert a[m] in b && b[n] in a;
    var j :| 0 <= j < |b| && b[j] == a[m];
    var i :| 0 <= i < |a| && a[i] == b[n];
    assert j == n || Chunking.Before(b, j, n);
    assert i == m || Chunking.Before(a, i, m);
  }

  lemma {:induction false} FrontKeepsAscending(a: seq<LogEntry>)
    requires Chunking.StrictlyAscending(a) && a != []
    ensures Chunking.StrictlyAscending(a[..|a| - 1])
  {
    var front := a[..|a| - 1];
    forall i, j | 0 <= i < j < |front| ensures Chunking.Before(front, i, j) {
      assert Chunking.Before(a, i, j);
    }
  }

  lemma {:induction false} FrontMembers(a: seq<LogEntry>, e: LogEntry)
    requires Chunking.StrictlyAscending(a) && a != []
    ensures e in a[..|a| - 1] <==> e in a && e != a[|a| - 1]
  {
    var m := |a| - 1;
    assert a == a[..m] + [a[m]];
    if e in a[..m] {
      var i :| 0 <= i < m && a[i] == e;
      assert Chunking.Before(a, i, m);
    }
  }

  // ---- Chunks of a log file, by number ----

  const NO_CHUNK := LogChunk("", "", 0, 0, 0, 0, "", "")

  function ChunkOf(t: Tables, id: string): LogChunk {
    if id in t.chunks then t.chunks[id] else NO_CHUNK
  }

  function ChunkIds(t: Tables, file: string): seq<string> {
    if file in t.chunksByLogFile then t.chunksByLogFile[file] else []
  }

  predicate NumberedBefore(a: LogChunk, b: LogChunk) {
    a.chunkNumber < b.chunkNumber
  }

  function UnsortedChunks(t: Tables, file: string): seq<LogChunk> {
    var ids := ChunkIds(t, file);
    seq(|ids|, i requires 0 <= i < |ids| => ChunkOf(t, ids[i]))
  }

  /** Ordered by chunk number. Numbers are unique per log file, so no tie can arise. */
  function ChunkRows(t: Tables, file: string): seq<LogChunk> {
    Sorting.Sort(UnsortedChunks(t, file), NumberedBefore)
  }

  predicate IsChunkOf(t: Tables, file: string, c: LogChunk) {
    c.id in t.chunks && t.chunks[c.id] == c && c.logFileId == file
  }

  ghost predicate IsLatestChunk(t: Tables, file: string, c: LogChunk) {
    IsChunkOf(t, file, c) && forall other :: IsChunkOf(t, file, other) ==> other.chunkNumber <= c.chunkNumber
  }

  ghost predicate NumberBelow(cs: seq<LogChunk>, i: int, j: int)
    requires 0 <= i < |cs| && 0 <= j < |cs|
  {
    cs[i].chunkNumber < cs[j].chunkNumber
  }

  ghost predicate NumbersAscend(cs: seq<LogChunk>) {
    forall i, j :: 0 <= i < j < |cs| ==> NumberBelow(cs, i, j)
  }

  lemma {:induction false} UnsortedChunksFacts(t: Tables, file: string)
    requires ChunksIndexed(t.logFiles.Keys, t.chunks, t.chunksByLogFile)
    ensures forall c :: c in UnsortedChunks(t, file) <==> IsChunkOf(t, file, c)
    ensures Sorting.DistinctKeys(UnsortedChunks(t, file), NumberOf)
  {
    var ids, rows := ChunkIds(t, file), UnsortedChunks(t, file);
    forall c | IsChunkOf(t, file, c) ensures c in rows {
      assert c.id in ids;
      var i :| 0 <= i < |ids| && ids[i] == c.id;
      assert rows[i] == c;
    }
    forall i, j | 0 <= i < j < |rows| ensures Sorting.KeysDiffer(rows, NumberOf, i, j) {
      assert ids[i] != ids[j] && ids[i] in t.chunks && ids[j] in t.chunks;
      assert !SameNumber(t.chunks[ids[i]], t.chunks[ids[j]]);
    }
  }

  lemma {:induction false} NumberedBeforeOrders()
    ensures Sorting.Orders(NumberedBefore)
  {
  }

  lemma {:induction false} ChunkRowsFacts(t: Tables, file: string)
    requires ChunksIndexed(t.logFiles.Keys, t.chunks, t.chunksByLogFile)
    ensures NumbersAscend(ChunkRows(t, file))
    ensures forall c :: c in ChunkRows(t, file) <==> IsChunkOf(t, file, c)
  {
    var unsorted, rows := UnsortedChunks(t, file), ChunkRows(t, file);
    assert rows == Sorting.Sort(unsorted, NumberedBefore);
    UnsortedChunksFacts(t, file);
    NumberedBeforeOrders();
    Sorting.SortSorts(unsorted, NumberedBefore);
    forall c ensures c in rows <==> c in unsorted {
      Sorting.SameElements(unsorted, NumberedBefore, c);
    }
    Sorting.SortedDistinctKeys(unsorted, NumberedBefore, NumberOf);
    forall i, j | 0 <= i < j < |rows| ensures NumberBelow(rows, i, j) {
      assert Sorting.InOrder(rows, NumberedBefore, i, j) && Sorting.KeysDiffer(rows, NumberOf, i, j);
    }
  }

  const NumberOf: LogChunk -> int := (c: LogChunk) => c.chunkNumber

  lemma {:induction false} LastChunkIsLatest(t: Tables, file: string)
    requires ChunksIndexed(t.logFiles.Keys, t.chunks, t.chunksByLogFile) && ChunkRows(t, file) != []
    ensures IsLatestChunk(t, file, ChunkRows(t, file)[|ChunkRows(t, file)| - 1])
  {
    var rows := ChunkRows(t, file);
    ChunkRowsFacts(t, file);
    forall c | IsChunkOf(t, file, c) ensures c.chunkNumber <= rows[|rows| - 1].chunkNumber {
      var i :| 0 <= i < |rows| && rows[i] == c;
      assert i < |rows| - 1 ==> NumberBelow(rows, i, |rows| - 1);
    }
  }

  lemma {:induction false} SameChunks(a: seq<LogChunk>, b: seq<LogChunk>)
    requires NumbersAscend(a) && NumbersAscend(b) && forall c :: c in a <==> c in b
    ensures a == b
  {
    assert (a != [] ==> a[0] in b) && (b != [] ==> b[0] in a);
    if a != [] && b != [] {
      var m, n := |a| - 1, |b| - 1;
      LastChunksAgree(a, b);
      FrontChunks(a);
      FrontChunks(b);
      forall c ensures c in a[..m] <==> c in b[..n] {
        FrontChunkMembers(a, c);
        FrontChunkMembers(b, c);
      }
      SameChunks(a[..m], b[..n]);
      assert a == a[..m] + [a[m]] && b == b[..n] + [b[n]];
    }
  }

  lemma {:induction false} LastChunksAgree(a: seq<LogChunk>, b: seq<LogChunk>)
    requires NumbersAscend(a) && NumbersAscend(b) && a != [] && b != [] && forall c :: c in a <==> c in b
    ensures a[|a| - 1] == b[|b| - 1]
  {
    var m, n := |a| - 1, |b| - 1;
    assert a[m] in b && b[n] in a;
    var j :| 0 <= j < |b| && b[j] == a[m];
    var i :| 0 <= i < |a| && a[i] == b[n];
    assert j == n || NumberBelow(b, j, n);
    assert i == m || NumberBelow(a, i, m);
  }

  lemma {:induction false} FrontChunks(a: seq<LogChunk>)
    requires NumbersAscend(a) && a != []
    ensures NumbersAscend(a[..|a| - 1])
  {
    var front := a[..|a| - 1];
    forall i, j | 0 <= i < j < |front| ensures NumberBelow(front, i, j) {
      assert NumberBelow(a, i, j);
    }
  }

  lemma {:induction false} FrontChunkMembers(a: seq<LogChunk>, c: LogChunk)
    requires NumbersAscend(a) && a != []
    ensures c in a[..|a| - 1] <==> c in a && c != a[|a| - 1]
  {
    var m := |a| - 1;
    assert a == a[..m] + [a[m]];
    if c in a[..m] {
      var i :| 0 <= i < m && a[i] == c;
      assert NumberBelow(a, i, m);
    }
  }

  // ---- The collector's view of one log file ----

  /** Rows as the collector built them, before ids were assigned. */
  function EraseEntryIds(rows: seq<LogEntry>): seq<LogEntry> {
    seq(|rows|, i requires 0 <= i < |rows| => rows[i].(id := ""))
  }

  function EraseChunkIds(rows: seq<LogChunk>): seq<LogChunk> {
    seq(|rows|, i requires 0 <= i < |rows| => rows[i].(id := ""))
  }

  ghost function View(t: Tables, file: string): Collector.FileStore {
    Collector.FileStore(EraseEntryIds(EntryRows(t, file)), EraseChunkIds(ChunkRows(t, file)),
                        if file in t.logFiles then t.logFiles[file].identity else NO_IDENTITY)
  }

  lemma {:induction false} EraseEntryIdsConcat(a: seq<LogEntry>, b: seq<LogEntry>)
    ensures EraseEntryIds(a + b) == EraseEntryIds(a) + EraseEntryIds(b)
  {
  }

  lemma {:induction false} EraseChunkIdsConcat(a: seq<LogChunk>, b: seq<LogChunk>)
    ensures EraseChunkIds(a + b) == EraseChunkIds(a) + EraseChunkIds(b)
  {
  }

  lemma {:induction false} ErasingKeepsOrder(rows: seq<LogEntry>)
    ensures Chunking.StrictlyAscending(EraseEntryIds(rows)) <==> Chunking.StrictlyAscending(rows)
  {
    var erased := EraseEntryIds(rows);
    if Chunking.StrictlyAscending(rows) {
      forall i, j | 0 <= i < j < |erased| ensures Chunking.Before(erased, i, j) {
        assert Chunking.Before(rows, i, j);
      }
    }
    if Chunking.StrictlyAscending(erased) {
      forall i, j | 0 <= i < j < |rows| ensures Chunking.Before(rows, i, j) {
        assert Chunking.Before(erased, i, j);
      }
    }
  }

  // ---- What each write does to the view ----

  lemma {:induction false} EntryRowsAre(t: Tables, file: string, rows: seq<LogEntry>)
    requires Consistent(t) && Chunking.StrictlyAscending(rows)
    requires forall e :: e in rows <==> IsEntryOf(t, file, e)
    ensures EntryRows(t, file) == rows
  {
    EntryRowsFacts(t, file);
    SameRows(EntryRows(t, file), rows);
  }

  lemma {:induction false} ChunkRowsAre(t: Tables, file: string, rows: seq<LogChunk>)
    requires ChunksIndexed(t.logFiles.Keys, t.chunks, t.chunksByLogFile) && NumbersAscend(rows)
    requires forall c :: c in rows <==> IsChunkOf(t, file, c)
    ensures ChunkRows(t, file) == rows
  {
    ChunkRowsFacts(t, file);
    SameChunks(ChunkRows(t, file), rows);
  }

  lemma {:induction false} EntriesAfterPut(t: Tables, es: seq<LogEntry>, file: string)
    requires Consistent(t) && EntriesFit(t, es) && forall i :: 0 <= i < |es| ==> es[i].logFileId == file
    requires Chunking.StrictlyAscending(EntryRows(t, file) + es)
    ensures EntryRows(PutEntries(t, es), file) == EntryRows(t, file) + es
  {
    var t', rows := PutEntries(t, es), EntryRows(t, file) + es;
    PutEntriesKeepsConsistent(t, es);
    EntryRowsFacts(t, file);
    PutEntriesAdds(t, es);
    forall e ensures e in rows <==> IsEntryOf(t', file, e) {
      if e in es {
        var i :| 0 <= i < |es| && es[i] == e;
      }
    }
    EntryRowsAre(t', file, rows);
  }

  lemma {:induction false} OtherEntriesAfterPut(t: Tables, es: seq<LogEntry>, file: string, other: string)
    requires Consistent(t) && EntriesFit(t, es) && forall i :: 0 <= i < |es| ==> es[i].logFileId == file
    requires other != file
    ensures EntryRows(PutEntries(t, es), other) == EntryRows(t, other)
  {
    var t', rows := PutEntries(t, es), EntryRows(t, other);
    PutEntriesKeepsConsistent(t, es);
    EntryRowsFacts(t, other);
    PutEntriesAdds(t, es);
    forall e ensures e in rows <==> IsEntryOf(t', other, e) {
    }
    EntryRowsAre(t', other, rows);
  }

  lemma {:induction false} ChunkMembersAfterPut(t: Tables, cs: seq<LogChunk>, c: LogChunk)
    requires ChunksFit(t, cs)
    ensures c.id in PutChunks(t, cs).chunks && PutChunks(t, cs).chunks[c.id] == c <==>
              (c.id in t.chunks && t.chunks[c.id] == c) || c in cs
  {
    if cs != [] {
      var front, last := cs[..|cs| - 1], cs[|cs| - 1];
      ChunksFitFront(t, cs);
      assert cs == front + [last];
      NextChunkFits(t, front, last);
      ChunkMembersAfterPut(t, front, c);
    }
  }

  lemma {:induction false} ChunksAfterPut(t: Tables, cs: seq<LogChunk>, file: string)
    requires Consistent(t) && ChunksFit(t, cs) && forall i :: 0 <= i < |cs| ==> cs[i].logFileId == file
    requires NumbersAscend(ChunkRows(t, file) + cs)
    ensures ChunkRows(PutChunks(t, cs), file) == ChunkRows(t, file) + cs
  {
    var t', rows := PutChunks(t, cs), ChunkRows(t, file) + cs;
    PutChunksKeepsIndexed(t, cs);
    ChunkRowsFacts(t, file);
    forall c ensures c in rows <==> IsChunkOf(t', file, c) {
      ChunkMembersAfterPut(t, cs, c);
    }
    ChunkRowsAre(t', file, rows);
  }

  lemma {:induction false} OtherChunksAfterPut(t: Tables, cs: seq<LogChunk>, file: string, other: string)
    requires Consistent(t) && ChunksFit(t, cs) && forall i :: 0 <= i < |cs| ==> cs[i].logFileId == file
    requires other != file
    ensures ChunkRows(PutChunks(t, cs), other) == ChunkRows(t, other)
  {
    var t', rows := PutChunks(t, cs), ChunkRows(t, other);
    PutChunksKeepsIndexed(t, cs);
    ChunkRowsFacts(t, other);
    forall c ensures c in rows <==> IsChunkOf(t', other, c) {
      ChunkMembersAfterPut(t, cs, c);
    }
    ChunkRowsAre(t', other, rows);
  }

  lemma {:induction false} EntryRowsDependOn(t: Tables, t': Tables, file: string)
    requires t'.entries == t.entries && t'.entriesByLogFile == t.entriesByLogFile
    ensures EntryRows(t', file) == EntryRows(t, file)
  {
  }

  lemma {:induction false} ChunkRowsDependOn(t: Tables, t': Tables, file: string)
    requires t'.chunks == t.chunks && t'.chunksByLogFile == t.chunksByLogFile
    ensures ChunkRows(t', file) == ChunkRows(t, file)
  {
    assert UnsortedChunks(t', file) == UnsortedChunks(t, file);
  }

  lemma {:induction false} DropSelects(t: Tables, file: string, other: string, e: LogEntry)
    ensures IsEntryOf(DropEntries(t, {file}), other, e) <==> other != file && IsEntryOf(t, other, e)
  {
  }

  lemma {:induction false} EntriesAfterDrop(t: Tables, file: string, other: string)
    requires Consistent(t)
    ensures EntryRows(DropEntries(t, {file}), other) == if other == file then [] else EntryRows(t, other)
  {
    var t' := DropEntries(t, {file});
    var rows := if other == file then [] else EntryRows(t, other);
    EntryRowsFacts(t, other);
    forall e ensures e in rows <==> IsEntryOf(t', other, e) {
      DropSelects(t, file, other, e);
    }
    DropEntriesKeepsConsistent(t, file);
    EntryRowsAre(t', other, rows);
  }

  lemma {:induction false} ChunksAfterDrop(t: Tables, file: string, other: string)
    requires Consistent(t)
    ensures ChunkRows(DropChunks(t, {file}), other) == if other == file then [] else ChunkRows(t, other)
  {
    var t' := DropChunks(t, {file});
    var t1 := t'.(logFiles := t.logFiles - {file});
    DropChunksKeepsIndexed(t.logFiles.Keys, t.chunks, t.chunksByLogFile, {file});
    KeptChunks(t, file, other);
    ChunkRowsAre(t1, other, if other == file then [] else ChunkRows(t, other));
    ChunkRowsDependOn(t', t1, other);
  }

  lemma {:induction false} KeptChunks(t: Tables, file: string, other: string)
    requires ChunksIndexed(t.logFiles.Keys, t.chunks, t.chunksByLogFile)
    ensures var t1 := DropChunks(t, {file}).(logFiles := t.logFiles - {file});
            var kept := if other == file then [] else ChunkRows(t, other);
            NumbersAscend(kept) && forall c :: c in kept <==> IsChunkOf(t1, other, c)
  {
    ChunkRowsFacts(t, other);
    var t1 := DropChunks(t, {file}).(logFiles := t.logFiles - {file});
    forall c ensures IsChunkOf(t1, other, c) <==> other != file && IsChunkOf(t, other, c) {
    }
  }
}

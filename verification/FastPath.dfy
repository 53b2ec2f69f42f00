/** The chunk fast path of the integrity check: a chunk whose aggregate hash still matches is skipped, every other
    stored row is compared on its own. */
module FastPath {
  import opened Prelude
  import opened Models
  import opened Hashing
  import opened Chunking
  import opened Batches
  import opened StoreFacts
  import opened Integrity
  import opened Collector
  import Sorting

  // ---- Hashing the current contents of a chunk ----

  predicate AllPresent(rows: seq<LogEntry>, current: map<int, string>) {
    forall i :: 0 <= i < |rows| ==> rows[i].lineNumber in current
  }

  function CurrentHashes(h: Hasher, rows: seq<LogEntry>, current: map<int, string>): seq<string> {
    seq(|rows|, i requires 0 <= i < |rows| => CurrentHash(h, current, rows[i]))
  }

  /** None when the chunk cannot be compared as a whole: rows were lost or added, or a line is gone. */
  function HashOfCurrentChunk(h: Hasher, rows: seq<LogEntry>, current: map<int, string>, c: LogChunk): Option<string> {
    if |rows| == c.entriesCount && AllPresent(rows, current)
    then Some(h.aggregate(JoinHashes(CurrentHashes(h, rows, current))))
    else None
  }

  method HashCurrentChunk(h: Hasher, rows: seq<LogEntry>, current: map<int, string>, c: LogChunk)
    returns (hash: string, ok: bool)
    ensures ok <==> HashOfCurrentChunk(h, rows, current, c).Some?
    ensures ok ==> hash == HashOfCurrentChunk(h, rows, current, c).value
  {
    if |rows| != c.entriesCount {
      return "", false;
    }
    var builder := "";
    ghost var hashes := CurrentHashes(h, rows, current);
    for i := 0 to |rows|
      invariant forall k :: 0 <= k < i ==> rows[k].lineNumber in current
      invariant builder == JoinHashes(hashes[..i])
    {
      if rows[i].lineNumber !in current {
        return "", false;
      }
      assert hashes[..i + 1][..i] == hashes[..i];
      builder := builder + h.line(current[rows[i].lineNumber]);
      builder := builder + "\n";
    }
    assert hashes[..|rows|] == hashes;
    return h.aggregate(builder), true;
  }

  // ---- The scan over the chunks ----

  /** The chunk's rows are taken as unchanged without looking at them one by one. */
  predicate Skips(h: Hasher, entries: seq<LogEntry>, current: map<int, string>, c: LogChunk) {
    HashOfCurrentChunk(h, InRange(entries, c.fromLine, c.toLine), current, c) == Some(c.hash)
  }

  function LinesOf(rows: seq<LogEntry>): set<int> {
    set i | 0 <= i < |rows| :: rows[i].lineNumber
  }

  datatype Scan = Scan(tampered: seq<TamperedEntry>, covered: set<int>)

  function ScanChunk(h: Hasher, entries: seq<LogEntry>, current: map<int, string>, scan: Scan, c: LogChunk): Scan {
    var rows := InRange(entries, c.fromLine, c.toLine);
    Scan(if Skips(h, entries, current, c) then scan.tampered
         else AppendUnique(scan.tampered, CompareStored(h, rows, current)),
         scan.covered + LinesOf(rows))
  }

  function ScanChunks(h: Hasher, entries: seq<LogEntry>, current: map<int, string>, chunks: seq<LogChunk>): Scan {
    if chunks == [] then Scan([], {}) else
      ScanChunk(h, entries, current, ScanChunks(h, entries, current, chunks[..|chunks| - 1]), chunks[|chunks| - 1])
  }

  function Uncovered(entries: seq<LogEntry>, covered: set<int>): seq<LogEntry> {
    if entries == [] then [] else
      var last := entries[|entries| - 1];
      Uncovered(entries[..|entries| - 1], covered) + if last.lineNumber in covered then [] else [last]
  }

  predicate StartsBefore(a: LogChunk, b: LogChunk) {
    a.fromLine < b.fromLine || (a.fromLine == b.fromLine && a.chunkNumber < b.chunkNumber)
  }

  /** What the check reports, as a function of the stored rows, the stored chunks and the current contents. */
  function FindTampered(h: Hasher, entries: seq<LogEntry>, chunks: seq<LogChunk>, current: map<int, string>)
    : seq<TamperedEntry>
  {
    if chunks == [] then CompareStored(h, entries, current) else
      var scan := ScanChunks(h, entries, current, Sorting.Sort(chunks, StartsBefore));
      if |scan.covered| < |entries|
      then AppendUnique(scan.tampered, CompareStored(h, Uncovered(entries, scan.covered), current))
      else scan.tampered
  }

  // ---- What AppendUnique keeps ----

  lemma {:induction false} AppendUniqueDistinct(target: seq<TamperedEntry>, items: seq<TamperedEntry>)
    requires DistinctLines(target)
    ensures DistinctLines(AppendUnique(target, items))
  {
    if items != [] {
      AppendUniqueDistinct(target, items[..|items| - 1]);
    }
  }

  /** Every reported element is a report about a stored row, computed against the same contents. */
  ghost predicate ReportsOn(h: Hasher, entries: seq<LogEntry>, current: map<int, string>, t: TamperedEntry) {
    exists e :: e in entries && Differs(h, current, e) && t == Report(h, current, e)
  }

  ghost predicate AllReportOn(h: Hasher, entries: seq<LogEntry>, current: map<int, string>, ts: seq<TamperedEntry>) {
    forall i :: 0 <= i < |ts| ==> ReportsOn(h, entries, current, ts[i])
  }

  lemma {:induction false} UniqueRow(entries: seq<LogEntry>, a: LogEntry, b: LogEntry)
    requires StrictlyAscending(entries) && a in entries && b in entries && a.lineNumber == b.lineNumber
    ensures a == b
  {
    var i :| 0 <= i < |entries| && entries[i] == a;
    var j :| 0 <= j < |entries| && entries[j] == b;
    assert i < j ==> Before(entries, i, j);
    assert j < i ==> Before(entries, j, i);
  }

  lemma {:induction false} AppendUniqueMembers(target: seq<TamperedEntry>, items: seq<TamperedEntry>, t: TamperedEntry)
    ensures t in AppendUnique(target, items) ==> t in target || t in items
    ensures Reported(AppendUnique(target, items), t.lineNumber) <==>
              Reported(target, t.lineNumber) || Reported(items, t.lineNumber)
  {
    if items != [] {
      var front, item := items[..|items| - 1], items[|items| - 1];
      AppendUniqueMembers(target, front, t);
      assert items == front + [item];
      ReportedSnoc(front, item, t.lineNumber);
      ReportedSnoc(AppendUnique(target, front), item, t.lineNumber);
    }
  }

  lemma {:induction false} ReportedSnoc(ts: seq<TamperedEntry>, item: TamperedEntry, n: int)
    ensures Reported(ts + [item], n) <==> Reported(ts, n) || item.lineNumber == n
  {
    var more := ts + [item];
    if Reported(ts, n) {
      var i :| 0 <= i < |ts| && ts[i].lineNumber == n;
      assert more[i].lineNumber == n;
    }
    assert more[|ts|].lineNumber == item.lineNumber;
    if Reported(more, n) {
      var i :| 0 <= i < |more| && more[i].lineNumber == n;
      assert i < |ts| ==> ts[i].lineNumber == n;
    }
  }

  // ---- What the scan reports and covers ----

  /** A compared (not skipped) chunk in which line n differs. */
  ghost predicate Exposes(h: Hasher, entries: seq<LogEntry>, current: map<int, string>, c: LogChunk, n: int) {
    !Skips(h, entries, current, c) &&
    Reported(CompareStored(h, InRange(entries, c.fromLine, c.toLine), current), n)
  }

  lemma {:induction false} ScanChunkReports(h: Hasher, entries: seq<LogEntry>, current: map<int, string>, scan: Scan,
                                            c: LogChunk, n: int)
    ensures Reported(ScanChunk(h, entries, current, scan, c).tampered, n) <==>
              Reported(scan.tampered, n) || Exposes(h, entries, current, c, n)
  {
    AppendUniqueMembers(scan.tampered, CompareStored(h, InRange(entries, c.fromLine, c.toLine), current),
                        TamperedEntry(n, "", "", ""));
  }

  ghost predicate SomeExposes(h: Hasher, entries: seq<LogEntry>, current: map<int, string>, chunks: seq<LogChunk>,
                              n: int)
  {
    exists c :: c in chunks && Exposes(h, entries, current, c, n)
  }

  lemma {:induction false} ScanReports(h: Hasher, entries: seq<LogEntry>, current: map<int, string>,
                                       chunks: seq<LogChunk>, n: int)
    ensures Reported(ScanChunks(h, entries, current, chunks).tampered, n) <==>
              SomeExposes(h, entries, current, chunks, n)
  {
    if chunks != [] {
      var front, last := chunks[..|chunks| - 1], chunks[|chunks| - 1];
      var before := ScanChunks(h, entries, current, front);
      assert Reported(ScanChunk(h, entries, current, before, last).tampered, n) <==>
             SomeExposes(h, entries, current, front, n) || Exposes(h, entries, current, last, n) by {
        ScanReports(h, entries, current, front, n);
        ScanChunkReports(h, entries, current, before, last, n);
      }
      assert chunks == front + [last];
      SomeExposesSnoc(h, entries, current, front, last, n);
    }
  }

  lemma {:induction false} SomeExposesSnoc(h: Hasher, entries: seq<LogEntry>, current: map<int, string>,
                                           front: seq<LogChunk>, last: LogChunk, n: int)
    ensures SomeExposes(h, entries, current, front + [last], n) <==>
              SomeExposes(h, entries, current, front, n) || Exposes(h, entries, current, last, n)
  {
  }

  lemma {:induction false} ScanCovers(h: Hasher, entries: seq<LogEntry>, current: map<int, string>,
                                      chunks: seq<LogChunk>, n: int)
    ensures n in ScanChunks(h, entries, current, chunks).covered <==>
              exists c :: c in chunks && n in LinesOf(InRange(entries, c.fromLine, c.toLine))
  {
    if chunks != [] {
      var front, last := chunks[..|chunks| - 1], chunks[|chunks| - 1];
      assert chunks == front + [last];
      ScanCovers(h, entries, current, front, n);
      if c :| c in chunks && n in LinesOf(InRange(entries, c.fromLine, c.toLine)) {
        assert c in front || c == last;
      }
    }
  }

  lemma {:induction false} ScanIsSound(h: Hasher, entries: seq<LogEntry>, current: map<int, string>,
                                       chunks: seq<LogChunk>)
    ensures DistinctLines(ScanChunks(h, entries, current, chunks).tampered)
    ensures AllReportOn(h, entries, current, ScanChunks(h, entries, current, chunks).tampered)
  {
    if chunks != [] {
      var front, last := chunks[..|chunks| - 1], chunks[|chunks| - 1];
      ScanIsSound(h, entries, current, front);
      var before := ScanChunks(h, entries, current, front).tampered;
      AppendComparedRows(h, entries, InRange(entries, last.fromLine, last.toLine), current, before) by {
        forall e | e in InRange(entries, last.fromLine, last.toLine) ensures e in entries {
          InRangeMembers(entries, last.fromLine, last.toLine, e);
        }
      }
    }
  }

  lemma {:induction false} AppendComparedRows(h: Hasher, entries: seq<LogEntry>, rows: seq<LogEntry>,
                                              current: map<int, string>, before: seq<TamperedEntry>)
    requires forall e :: e in rows ==> e in entries
    requires DistinctLines(before) && AllReportOn(h, entries, current, before)
    ensures DistinctLines(AppendUnique(before, CompareStored(h, rows, current)))
    ensures AllReportOn(h, entries, current, AppendUnique(before, CompareStored(h, rows, current)))
  {
    var items := CompareStored(h, rows, current);
    var after := AppendUnique(before, items);
    AppendUniqueDistinct(before, items);
    forall i | 0 <= i < |after| ensures ReportsOn(h, entries, current, after[i]) {
      AppendUniqueMembers(before, items, after[i]);
      CompareStoredMembers(h, rows, current, after[i]);
    }
  }

  // ---- The rows no chunk covers ----

  lemma {:induction false} UncoveredMembers(entries: seq<LogEntry>, covered: set<int>, e: LogEntry)
    ensures e in Uncovered(entries, covered) <==> e in entries && e.lineNumber !in covered
  {
    if entries != [] {
      UncoveredMembers(entries[..|entries| - 1], covered, e);
      assert entries == entries[..|entries| - 1] + [entries[|entries| - 1]];
    }
  }

  lemma {:induction false} LinesAreDistinct(entries: seq<LogEntry>)
    requires StrictlyAscending(entries)
    ensures |LinesOf(entries)| == |entries|
  {
    if entries != [] {
      var front, last := entries[..|entries| - 1], entries[|entries| - 1];
      forall i, j | 0 <= i < j < |front| ensures Before(front, i, j) {
        assert Before(entries, i, j);
      }
      LinesAreDistinct(front);
      forall i | 0 <= i < |front| ensures front[i].lineNumber != last.lineNumber {
        assert Before(entries, i, |front|);
      }
      assert LinesOf(entries) == LinesOf(front) + {last.lineNumber};
    }
  }

  /** Counting covered lines is enough to know whether any row is left over. */
  lemma {:induction false} CountDecidesCoverage(entries: seq<LogEntry>, covered: set<int>)
    requires StrictlyAscending(entries) && covered <= LinesOf(entries)
    ensures |covered| < |entries| || Uncovered(entries, covered) == []
  {
    LinesAreDistinct(entries);
    if |covered| >= |entries| {
      assert covered == LinesOf(entries) by {
        SameSize(covered, LinesOf(entries));
      }
      forall e | e in entries ensures e.lineNumber in LinesOf(entries) {
        var i :| 0 <= i < |entries| && entries[i] == e;
      }
      if Uncovered(entries, covered) != [] {
        UncoveredMembers(entries, covered, Uncovered(entries, covered)[0]);
      }
    }
  }

  lemma {:induction false} SameSize(a: set<int>, b: set<int>)
    requires a <= b && |a| >= |b|
    ensures a == b
  {
    assert b == a + (b - a);
  }

  // ---- The fast path against the flat comparison ----

  /** Row e is covered, but only by chunks that were skipped. */
  ghost predicate Escapes(h: Hasher, entries: seq<LogEntry>, chunks: seq<LogChunk>, current: map<int, string>,
                          e: LogEntry)
  {
    (exists c :: c in chunks && Covers(c, e)) &&
    (forall c :: c in chunks && Covers(c, e) ==> Skips(h, entries, current, c))
  }

  lemma {:induction false} CoveredLines(h: Hasher, entries: seq<LogEntry>, chunks: seq<LogChunk>,
                                        current: map<int, string>, e: LogEntry)
    requires StrictlyAscending(entries) && e in entries
    ensures e.lineNumber in ScanChunks(h, entries, current, chunks).covered <==> exists c :: c in chunks && Covers(c, e)
  {
    ScanCovers(h, entries, current, chunks, e.lineNumber);
    if c :| c in chunks && Covers(c, e) {
      InRangeMembers(entries, c.fromLine, c.toLine, e);
      var rows := InRange(entries, c.fromLine, c.toLine);
      var i :| 0 <= i < |rows| && rows[i] == e;
      assert e.lineNumber in LinesOf(rows);
    }
    if c :| c in chunks && e.lineNumber in LinesOf(InRange(entries, c.fromLine, c.toLine)) {
      var rows := InRange(entries, c.fromLine, c.toLine);
      var i :| 0 <= i < |rows| && rows[i].lineNumber == e.lineNumber;
      InRangeMembers(entries, c.fromLine, c.toLine, rows[i]);
      assert Covers(c, e);
    }
  }

  lemma {:induction false} CoveredAreStored(h: Hasher, entries: seq<LogEntry>, chunks: seq<LogChunk>,
                                            current: map<int, string>)
    ensures ScanChunks(h, entries, current, chunks).covered <= LinesOf(entries)
  {
    forall n | n in ScanChunks(h, entries, current, chunks).covered ensures n in LinesOf(entries) {
      ScanCovers(h, entries, current, chunks, n);
      var c :| c in chunks && n in LinesOf(InRange(entries, c.fromLine, c.toLine));
      var rows := InRange(entries, c.fromLine, c.toLine);
      var i :| 0 <= i < |rows| && rows[i].lineNumber == n;
      InRangeMembers(entries, c.fromLine, c.toLine, rows[i]);
    }
  }

  lemma {:induction false} ComparedLine(h: Hasher, rows: seq<LogEntry>, current: map<int, string>, n: int)
    ensures Reported(CompareStored(h, rows, current), n) <==>
              exists e :: e in rows && Differs(h, current, e) && e.lineNumber == n
  {
    var ts := CompareStored(h, rows, current);
    if Reported(ts, n) {
      var i :| 0 <= i < |ts| && ts[i].lineNumber == n;
      CompareStoredMembers(h, rows, current, ts[i]);
    }
    if e :| e in rows && Differs(h, current, e) && e.lineNumber == n {
      CompareStoredMembers(h, rows, current, Report(h, current, e));
      var i :| 0 <= i < |ts| && ts[i] == Report(h, current, e);
      assert ts[i].lineNumber == n;
    }
  }

  lemma {:induction false} FindTamperedAsAppend(h: Hasher, entries: seq<LogEntry>, chunks: seq<LogChunk>,
                                                current: map<int, string>)
    requires StrictlyAscending(entries) && chunks != []
    ensures var scan := ScanChunks(h, entries, current, Sorting.Sort(chunks, StartsBefore));
            FindTampered(h, entries, chunks, current) ==
              AppendUnique(scan.tampered, CompareStored(h, Uncovered(entries, scan.covered), current))
  {
    var sorted := Sorting.Sort(chunks, StartsBefore);
    CoveredAreStored(h, entries, sorted, current);
    CountDecidesCoverage(entries, ScanChunks(h, entries, current, sorted).covered);
  }

  /** Unconditionally, even when hashes collide: the check reports each line at most once and only what the flat
      comparison reports. */
  lemma {:induction false} FastPathIsSound(h: Hasher, entries: seq<LogEntry>, chunks: seq<LogChunk>,
                                           current: map<int, string>)
    requires StrictlyAscending(entries)
    ensures var found := FindTampered(h, entries, chunks, current);
            DistinctLines(found) && forall t :: t in found ==> t in CompareStored(h, entries, current)
  {
    var found := FindTampered(h, entries, chunks, current);
    assert DistinctLines(found) && AllReportOn(h, entries, current, found) by {
      if chunks == [] {
        FlatIsSound(h, entries, current);
      } else {
        FindTamperedAsAppend(h, entries, chunks, current);
        var scan := ScanChunks(h, entries, current, Sorting.Sort(chunks, StartsBefore));
        ScanIsSound(h, entries, current, Sorting.Sort(chunks, StartsBefore));
        forall e | e in Uncovered(entries, scan.covered) ensures e in entries {
          UncoveredMembers(entries, scan.covered, e);
        }
        AppendComparedRows(h, entries, Uncovered(entries, scan.covered), current, scan.tampered);
      }
    }
    forall t | t in found ensures t in CompareStored(h, entries, current) {
      var i :| 0 <= i < |found| && found[i] == t;
      assert ReportsOn(h, entries, current, found[i]);
      CompareStoredMembers(h, entries, current, t);
    }
  }

  lemma {:induction false} EarlierLinesAreSmaller(h: Hasher, front: seq<LogEntry>, last: LogEntry,
                                                  current: map<int, string>)
    requires StrictlyAscending(front + [last])
    requires AllReportOn(h, front, current, CompareStored(h, front, current))
    ensures forall i :: 0 <= i < |CompareStored(h, front, current)| ==>
              CompareStored(h, front, current)[i].lineNumber < last.lineNumber
  {
    var before := CompareStored(h, front, current);
    forall i | 0 <= i < |before| ensures before[i].lineNumber < last.lineNumber {
      assert ReportsOn(h, front, current, before[i]);
      var e :| e in front && Differs(h, current, e) && before[i] == Report(h, current, e);
      var k :| 0 <= k < |front| && front[k] == e;
      assert Before(front + [last], k, |front|);
    }
  }

  lemma {:induction false} FlatIsSound(h: Hasher, entries: seq<LogEntry>, current: map<int, string>)
    requires StrictlyAscending(entries)
    ensures DistinctLines(CompareStored(h, entries, current))
    ensures AllReportOn(h, entries, current, CompareStored(h, entries, current))
  {
    var flat := CompareStored(h, entries, current);
    if entries != [] {
      var front, last := entries[..|entries| - 1], entries[|entries| - 1];
      assert front + [last] == entries;
      StrictlyAscendingParts(front, [last]);
      FlatIsSound(h, front, current);
      EarlierLinesAreSmaller(h, front, last, current);
    }
    forall i | 0 <= i < |flat| ensures ReportsOn(h, entries, current, flat[i]) {
      CompareStoredMembers(h, entries, current, flat[i]);
    }
  }

  /** Exactly which rows the check reports, whatever the chunks are (overlapping, sparse, stale) and whatever collides:
      the rows that differ and do not hide behind skipped chunks only. */
  lemma {:induction false} FastPathIsExact(h: Hasher, entries: seq<LogEntry>, chunks: seq<LogChunk>,
                                           current: map<int, string>, e: LogEntry)
    requires StrictlyAscending(entries) && e in entries
    ensures Report(h, current, e) in FindTampered(h, entries, chunks, current) <==>
              Differs(h, current, e) && !Escapes(h, entries, chunks, current, e)
  {
    var found := FindTampered(h, entries, chunks, current);
    var n := e.lineNumber;
    assert Reported(found, n) <==> Differs(h, current, e) && !Escapes(h, entries, chunks, current, e) by {
      if chunks == [] {
        ComparedLine(h, entries, current, n);
        OnlyRowOfLine(h, entries, current, e);
      } else {
        ReportedLine(h, entries, chunks, current, e);
      }
    }
    assert Reported(found, n) <==> Report(h, current, e) in found by {
      FastPathIsSound(h, entries, chunks, current);
      ReportOfLine(h, entries, current, found, e);
    }
  }

  /** A sound list that reports a line holds the report of that line's row. */
  lemma {:induction false} ReportOfLine(h: Hasher, entries: seq<LogEntry>, current: map<int, string>,
                                        found: seq<TamperedEntry>, e: LogEntry)
    requires StrictlyAscending(entries) && e in entries
    requires forall t :: t in found ==> t in CompareStored(h, entries, current)
    ensures Reported(found, e.lineNumber) <==> Report(h, current, e) in found
  {
    if Reported(found, e.lineNumber) {
      var i :| 0 <= i < |found| && found[i].lineNumber == e.lineNumber;
      CompareStoredMembers(h, entries, current, found[i]);
      var e' :| e' in entries && Differs(h, current, e') && found[i] == Report(h, current, e');
      UniqueRow(entries, e, e');
    }
    if Report(h, current, e) in found {
      var i :| 0 <= i < |found| && found[i] == Report(h, current, e);
      assert found[i].lineNumber == e.lineNumber;
    }
  }

  lemma {:induction false} OnlyRowOfLine(h: Hasher, rows: seq<LogEntry>, current: map<int, string>, e: LogEntry)
    requires StrictlyAscending(rows) && e in rows
    ensures (exists e' :: e' in rows && Differs(h, current, e') && e'.lineNumber == e.lineNumber) <==>
              Differs(h, current, e)
  {
    if e' :| e' in rows && Differs(h, current, e') && e'.lineNumber == e.lineNumber {
      UniqueRow(rows, e, e');
    }
  }

  lemma {:induction false} ReportedLine(h: Hasher, entries: seq<LogEntry>, chunks: seq<LogChunk>,
                                        current: map<int, string>, e: LogEntry)
    requires StrictlyAscending(entries) && e in entries && chunks != []
    ensures Reported(FindTampered(h, entries, chunks, current), e.lineNumber) <==>
              Differs(h, current, e) && !Escapes(h, entries, chunks, current, e)
  {
    var n := e.lineNumber;
    var sorted := Sorting.Sort(chunks, StartsBefore);
    var scan := ScanChunks(h, entries, current, sorted);
    var rest := Uncovered(entries, scan.covered);
    assert Reported(FindTampered(h, entries, chunks, current), n) <==>
           SomeExposes(h, entries, current, sorted, n) || Reported(CompareStored(h, rest, current), n) by {
      FindTamperedAsAppend(h, entries, chunks, current);
      AppendUniqueMembers(scan.tampered, CompareStored(h, rest, current), Report(h, current, e));
      ScanReports(h, entries, current, sorted, n);
    }
    assert Reported(CompareStored(h, rest, current), n) <==>
           Differs(h, current, e) && !(exists c :: c in chunks && Covers(c, e)) by {
      UncoveredLine(h, entries, chunks, current, e);
    }
    assert SomeExposes(h, entries, current, sorted, n) <==>
           Differs(h, current, e) && exists c :: c in chunks && Covers(c, e) && !Skips(h, entries, current, c) by {
      ExposedLine(h, entries, chunks, current, e);
    }
  }

  lemma {:induction false} UncoveredLine(h: Hasher, entries: seq<LogEntry>, chunks: seq<LogChunk>,
                                         current: map<int, string>, e: LogEntry)
    requires StrictlyAscending(entries) && e in entries
    ensures var scan := ScanChunks(h, entries, current, Sorting.Sort(chunks, StartsBefore));
            Reported(CompareStored(h, Uncovered(entries, scan.covered), current), e.lineNumber) <==>
              Differs(h, current, e) && !(exists c :: c in chunks && Covers(c, e))
  {
    var sorted := Sorting.Sort(chunks, StartsBefore);
    var scan := ScanChunks(h, entries, current, sorted);
    var rest := Uncovered(entries, scan.covered);
    CoveredLines(h, entries, sorted, current, e);
    assert (exists c :: c in chunks && Covers(c, e)) <==> (exists c :: c in sorted && Covers(c, e)) by {
      forall c ensures c in sorted <==> c in chunks {
        Sorting.SameElements(chunks, StartsBefore, c);
      }
    }
    ComparedLine(h, rest, current, e.lineNumber);
    UncoveredMembers(entries, scan.covered, e);
    if e' :| e' in rest && Differs(h, current, e') && e'.lineNumber == e.lineNumber {
      UncoveredMembers(entries, scan.covered, e');
      UniqueRow(entries, e, e');
    }
  }

  lemma {:induction false} ExposedLine(h: Hasher, entries: seq<LogEntry>, chunks: seq<LogChunk>,
                                       current: map<int, string>, e: LogEntry)
    requires StrictlyAscending(entries) && e in entries
    ensures SomeExposes(h, entries, current, Sorting.Sort(chunks, StartsBefore), e.lineNumber) <==>
              Differs(h, current, e) && exists c :: c in chunks && Covers(c, e) && !Skips(h, entries, current, c)
  {
    var n, sorted := e.lineNumber, Sorting.Sort(chunks, StartsBefore);
    if SomeExposes(h, entries, current, sorted, n) {
      var c :| c in sorted && Exposes(h, entries, current, c, n);
      Sorting.SameElements(chunks, StartsBefore, c);
      ExposingChunk(h, entries, current, c, e);
    }
    if Differs(h, current, e) {
      if c :| c in chunks && Covers(c, e) && !Skips(h, entries, current, c) {
        Sorting.SameElements(chunks, StartsBefore, c);
        ExposingChunk(h, entries, current, c, e);
      }
    }
  }

  lemma {:induction false} ExposingChunk(h: Hasher, entries: seq<LogEntry>, current: map<int, string>, c: LogChunk,
                                         e: LogEntry)
    requires StrictlyAscending(entries) && e in entries
    ensures Exposes(h, entries, current, c, e.lineNumber) <==>
              Differs(h, current, e) && Covers(c, e) && !Skips(h, entries, current, c)
  {
    var rows := InRange(entries, c.fromLine, c.toLine);
    ComparedLine(h, rows, current, e.lineNumber);
    assert e in rows <==> Covers(c, e) by {
      InRangeMembers(entries, c.fromLine, c.toLine, e);
    }
    if e' :| e' in rows && Differs(h, current, e') && e'.lineNumber == e.lineNumber {
      assert e' == e by {
        InRangeMembers(entries, c.fromLine, c.toLine, e');
        UniqueRow(entries, e, e');
      }
    }
  }

  // ---- When the fast path loses nothing ----

  /** The two strings hashed for one chunk, now and at collection time, do not collide. */
  ghost predicate NoAggregateCollision(h: Hasher, entries: seq<LogEntry>, current: map<int, string>, c: LogChunk) {
    var rows := InRange(entries, c.fromLine, c.toLine);
    var now, then_ := JoinHashes(CurrentHashes(h, rows, current)), JoinHashes(Hashes(rows));
    h.aggregate(now) == h.aggregate(then_) ==> now == then_
  }

  /** If the recorded count fits the stored rows then so does the recorded hash. */
  ghost predicate CountVouchesForHash(h: Hasher, entries: seq<LogEntry>, c: LogChunk) {
    var rows := InRange(entries, c.fromLine, c.toLine);
    |rows| == c.entriesCount ==> c.hash == AggregateHash(h, rows)
  }

  ghost predicate StoredDigests(entries: seq<LogEntry>) {
    forall i :: 0 <= i < |entries| ==> NewlineFree(entries[i].hash)
  }

  lemma {:induction false} SkippedRowsAreUnchanged(h: Hasher, entries: seq<LogEntry>, current: map<int, string>,
                                                   c: LogChunk, e: LogEntry)
    requires ProducesDigests(h) && StoredDigests(entries)
    requires CountVouchesForHash(h, entries, c) && NoAggregateCollision(h, entries, current, c)
    requires Skips(h, entries, current, c) && e in InRange(entries, c.fromLine, c.toLine)
    ensures !Differs(h, current, e)
  {
    var rows := InRange(entries, c.fromLine, c.toLine);
    var now, then_ := CurrentHashes(h, rows, current), Hashes(rows);
    forall i | 0 <= i < |rows| ensures NewlineFree(then_[i]) {
      InRangeMembers(entries, c.fromLine, c.toLine, rows[i]);
    }
    JoinHashesInjective(now, then_);
    var k :| 0 <= k < |rows| && rows[k] == e;
    assert now[k] == then_[k];
  }

  /** The fast path refines the flat comparison: for any chunks whose matching count vouches for their hash, and no
      collision among the strings compared, both report the same set. */
  lemma {:induction false} FastPathRefinesFlat(h: Hasher, entries: seq<LogEntry>, chunks: seq<LogChunk>,
                                               current: map<int, string>, t: TamperedEntry)
    requires StrictlyAscending(entries) && ProducesDigests(h) && StoredDigests(entries)
    requires forall c :: c in chunks ==>
               CountVouchesForHash(h, entries, c) && NoAggregateCollision(h, entries, current, c)
    ensures t in FindTampered(h, entries, chunks, current) <==> t in CompareStored(h, entries, current)
  {
    FastPathIsSound(h, entries, chunks, current);
    CompareStoredMembers(h, entries, current, t);
    if e :| e in entries && Differs(h, current, e) && t == Report(h, current, e) {
      FastPathIsExact(h, entries, chunks, current, e);
      if Escapes(h, entries, chunks, current, e) {
        var c :| c in chunks && Covers(c, e);
        InRangeMembers(entries, c.fromLine, c.toLine, e);
        SkippedRowsAreUnchanged(h, entries, current, c, e);
        assert false;
      }
    }
  }
}

/** The integrity check: comparing stored hashes with the current remote contents, entry by entry and through chunks. */
module Integrity {
  import opened Prelude
  import opened Models
  import opened Hashing
  import opened Chunking
  import opened Batches

  /** The content each line number has now. When output repeats a number, the later line counts. */
  function ContentByLine(lines: seq<Line>): map<int, string> {
    if lines == [] then map[] else
      ContentByLine(lines[..|lines| - 1])[lines[|lines| - 1].number := lines[|lines| - 1].content]
  }

  method IndexByLine(lines: seq<Line>) returns (byLine: map<int, string>)
    ensures byLine == ContentByLine(lines)
  {
    byLine := map[];
    for i := 0 to |lines|
      invariant byLine == ContentByLine(lines[..i])
    {
      assert lines[..i + 1][..i] == lines[..i];
      byLine := byLine[lines[i].number := lines[i].content];
    }
    assert lines[..|lines|] == lines;
  }

  function CurrentHash(h: Hasher, current: map<int, string>, e: LogEntry): string {
    if e.lineNumber in current then h.line(current[e.lineNumber]) else ""
  }

  /** The line is gone or its content no longer has the stored hash. */
  predicate Differs(h: Hasher, current: map<int, string>, e: LogEntry) {
    e.lineNumber !in current || h.line(current[e.lineNumber]) != e.hash
  }

  function Report(h: Hasher, current: map<int, string>, e: LogEntry): TamperedEntry {
    TamperedEntry(e.lineNumber, e.hash, CurrentHash(h, current, e),
                  if e.lineNumber in current then current[e.lineNumber] else "")
  }

  // ---- The flat comparison ----

  function CompareStored(h: Hasher, entries: seq<LogEntry>, current: map<int, string>): seq<TamperedEntry> {
    if entries == [] then [] else
      var last := entries[|entries| - 1];
      CompareStored(h, entries[..|entries| - 1], current) +
      if Differs(h, current, last) then [Report(h, current, last)] else []
  }

  method CompareStoredEntries(h: Hasher, entries: seq<LogEntry>, current: map<int, string>)
    returns (tampered: seq<TamperedEntry>)
    ensures tampered == CompareStored(h, entries, current)
  {
    tampered := [];
    for i := 0 to |entries|
      invariant tampered == CompareStored(h, entries[..i], current)
    {
      var entry := entries[i];
      assert entries[..i + 1][..i] == entries[..i];
      var ok := entry.lineNumber in current;
      var currentHash := "";
      if ok {
        currentHash := h.line(current[entry.lineNumber]);
      }
      if !ok || currentHash != entry.hash {
        tampered := tampered + [TamperedEntry(entry.lineNumber, entry.hash, currentHash,
                                              if ok then current[entry.lineNumber] else "")];
      }
    }
    assert entries[..|entries|] == entries;
  }

  lemma {:induction false} CompareStoredMembers(h: Hasher, entries: seq<LogEntry>, current: map<int, string>,
                                                t: TamperedEntry)
    ensures t in CompareStored(h, entries, current) <==>
              exists e :: e in entries && Differs(h, current, e) && t == Report(h, current, e)
  {
    if entries != [] {
      var front, last := entries[..|entries| - 1], entries[|entries| - 1];
      assert entries == front + [last];
      CompareStoredMembers(h, front, current, t);
      if e :| e in entries && Differs(h, current, e) && t == Report(h, current, e) {
        assert e in front || e == last;
      }
    }
  }

  lemma {:induction false} CompareStoredConcat(h: Hasher, a: seq<LogEntry>, b: seq<LogEntry>, current: map<int, string>)
    ensures CompareStored(h, a + b, current) == CompareStored(h, a, current) + CompareStored(h, b, current)
  {
    if b == [] {
      assert a + b == a;
    } else {
      assert (a + b)[..|a + b| - 1] == a + b[..|b| - 1];
      CompareStoredConcat(h, a, b[..|b| - 1], current);
    }
  }

  // ---- Reporting each line once ----

  predicate Reported(tampered: seq<TamperedEntry>, line: int) {
    exists i :: 0 <= i < |tampered| && tampered[i].lineNumber == line
  }

  function AppendUnique(target: seq<TamperedEntry>, items: seq<TamperedEntry>): seq<TamperedEntry> {
    if items == [] then target else
      var done := AppendUnique(target, items[..|items| - 1]);
      var item := items[|items| - 1];
      if Reported(done, item.lineNumber) then done else done + [item]
  }

  ghost predicate DistinctLines(tampered: seq<TamperedEntry>) {
    forall i, j :: 0 <= i < j < |tampered| ==> tampered[i].lineNumber != tampered[j].lineNumber
  }

  ghost predicate TracksLines(seen: set<int>, tampered: seq<TamperedEntry>) {
    forall n :: n in seen <==> Reported(tampered, n)
  }

  method AppendUniqueTampered(target: seq<TamperedEntry>, seen: set<int>, items: seq<TamperedEntry>)
    returns (result: seq<TamperedEntry>, seen': set<int>)
    requires TracksLines(seen, target)
    ensures result == AppendUnique(target, items) && TracksLines(seen', result)
  {
    result, seen' := target, seen;
    for i := 0 to |items|
      invariant result == AppendUnique(target, items[..i]) && TracksLines(seen', result)
    {
      assert items[..i + 1][..i] == items[..i];
      var item := items[i];
      if item.lineNumber in seen' {
        continue;
      }
      TracksOneMore(seen', result, item);
      seen' := seen' + {item.lineNumber};
      result := result + [item];
    }
    assert items[..|items|] == items;
  }

  lemma {:induction false} TracksOneMore(seen: set<int>, tampered: seq<TamperedEntry>, item: TamperedEntry)
    requires TracksLines(seen, tampered)
    ensures TracksLines(seen + {item.lineNumber}, tampered + [item])
  {
    var more := tampered + [item];
    forall n ensures n in seen + {item.lineNumber} <==> Reported(more, n) {
      if Reported(tampered, n) {
        var i :| 0 <= i < |tampered| && tampered[i].lineNumber == n;
        assert more[i].lineNumber == n;
      }
      if n == item.lineNumber {
        assert more[|tampered|].lineNumber == n;
      }
      if Reported(more, n) {
        var i :| 0 <= i < |more| && more[i].lineNumber == n;
        assert i < |tampered| ==> tampered[i].lineNumber == n;
      }
    }
  }
}

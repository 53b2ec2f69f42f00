/** A remote file as the collector sees it through the SSH executor, and what one run stores of it. */
module FileReadings {
  import opened Prelude
  import opened Models
  import opened Hashing
  import opened Text
  import opened Chunking
  import opened Batches
  import opened Collector
  import opened StoreFacts
  import LineOutput

  // ---- Reading a file ----

  /** The numbered lines after a given line number, as the remote command prints them. */
  function ReadFile(content: seq<string>, after: int): seq<Line> {
    var start := if after < 0 then 0 else after;
    if start >= |content| then [] else
      seq(|content| - start, i requires 0 <= i < |content| - start => Line(start + i + 1, content[start + i]))
  }

  /** The executor trims the whole output, so the line that is last at the time of the read loses all its trailing
      white space, and every other line only its trailing returns. */
  function SeenLine(content: seq<string>, i: nat): string
    requires i < |content|
  {
    if i == |content| - 1 then TrimRight(content[i], IsSpace) else TrimRight(content[i], IsReturn)
  }

  function Seen(content: seq<string>, after: int): seq<Line> {
    var start := if after < 0 then 0 else after;
    if start >= |content| then [] else
      seq(|content| - start, i requires 0 <= i < |content| - start => Line(start + i + 1, SeenLine(content, start + i)))
  }

  function Reader(content: seq<string>, readable: bool): int -> Option<seq<Line>> {
    n => if readable then Some(Seen(content, n)) else None
  }

  ghost predicate TextLines(content: seq<string>) {
    |content| <= INT64_MAX && forall i :: 0 <= i < |content| ==> '\n' !in content[i]
  }

  lemma {:induction false} FileIsPrintable(content: seq<string>, after: int)
    requires TextLines(content)
    ensures LineOutput.AllPrintable(ReadFile(content, after)) && LineOutput.StrictlyNumbered(ReadFile(content, after))
  {
    var lines, start := ReadFile(content, after), if after < 0 then 0 else after;
    forall j | 0 <= j < |lines| ensures LineOutput.Printable(lines[j]) && lines[j].number == start + j + 1 {
      assert lines[j] == Line(start + j + 1, content[start + j]);
    }
  }

  lemma {:induction false} SeenIsTrimmed(content: seq<string>, after: int)
    requires ReadFile(content, after) != []
    ensures Seen(content, after) == LineOutput.ReadTrimmed(ReadFile(content, after))
  {
    var lines, seen := ReadFile(content, after), Seen(content, after);
    var n, start := |lines| - 1, if after < 0 then 0 else after;
    var front := LineOutput.Read(lines[..n]);
    assert |lines| == |seen| == |content| - start;
    forall j | 0 <= j < n ensures seen[j] == front[j] {
      assert lines[..n][j] == Line(start + j + 1, content[start + j]);
      assert front[j] == Line(start + j + 1, TrimRight(content[start + j], IsReturn));
      assert SeenLine(content, start + j) == TrimRight(content[start + j], IsReturn);
      assert seen[j] == Line(start + j + 1, SeenLine(content, start + j));
    }
    assert seen == front + [seen[n]];
    assert lines[n] == Line(start + n + 1, content[start + n]) && start + n == |content| - 1;
    assert SeenLine(content, start + n) == TrimRight(content[start + n], IsSpace);
    assert seen[n] == lines[n].(content := TrimRight(lines[n].content, IsSpace));
  }

  /** `Seen` is what the parser makes of the trimmed output of the remote command, for every file and start line. */
  lemma {:induction false} SeenThroughSsh(content: seq<string>, after: int, parsed: seq<Line>)
    requires TextLines(content) && LineOutput.ParsesTo(TrimSpace(LineOutput.Print(ReadFile(content, after))), parsed)
    ensures parsed == Seen(content, after)
  {
    var lines := ReadFile(content, after);
    if lines == [] {
      LineOutput.NothingIsRead();
      assert |multiset(parsed)| == 0;
    } else {
      FileIsPrintable(content, after);
      LineOutput.ReadUndoesPrintThroughSsh(lines, parsed);
      SeenIsTrimmed(content, after);
    }
  }

  // ---- The rows of a file ----

  /** The rows of a whole file read at once. */
  function FileRows(cfg: Config, content: seq<string>): seq<LogEntry> {
    seq(|content|, i requires 0 <= i < |content| => EntryFor(cfg, Line(i + 1, SeenLine(content, i))))
  }

  /** The rows of the lines numbered above `k`. */
  function RowsAbove(cfg: Config, content: seq<string>, k: nat): seq<LogEntry> {
    if k >= |content| then [] else FileRows(cfg, content)[k..]
  }

  lemma {:induction false} EntriesOfLines(cfg: Config, lines: seq<Line>, k: int)
    requires forall i :: 0 <= i < |lines| ==> lines[i].number > k
    ensures NewEntries(cfg, lines, k) == seq(|lines|, i requires 0 <= i < |lines| => EntryFor(cfg, lines[i]))
  {
    if lines != [] {
      EntriesOfLines(cfg, lines[..|lines| - 1], k);
    }
  }

  lemma {:induction false} NewEntriesOfFile(cfg: Config, content: seq<string>, k: nat)
    ensures NewEntries(cfg, Seen(content, k), k) == RowsAbove(cfg, content, k)
  {
    var lines, rows := Seen(content, k), RowsAbove(cfg, content, k);
    EntriesOfLines(cfg, lines, k);
    assert |lines| == |rows|;
    forall i | 0 <= i < |rows| ensures rows[i] == EntryFor(cfg, lines[i]) {
      assert rows[i] == FileRows(cfg, content)[k + i];
    }
  }

  lemma {:induction false} RowsAboveContinue(cfg: Config, stored: seq<LogEntry>, content: seq<string>)
    requires StrictlyAscending(stored)
    ensures StrictlyAscending(stored + RowsAbove(cfg, content, MaxLine(stored)))
  {
    var all := stored + RowsAbove(cfg, content, MaxLine(stored));
    forall i, j | 0 <= i < j < |all| ensures Before(all, i, j) {
      if j < |stored| {
        assert Before(stored, i, j);
      } else if i < |stored| - 1 {
        assert Before(stored, i, |stored| - 1);
      }
    }
  }

  // ---- One run ----

  function BatchCount(cfg: Config, fs: FileStore, c: Circumstances): nat
    requires ValidConfig(cfg)
  {
    var resets := c.inspected.Some? && ShouldReset(fs.identity, c.inspected.value);
    var start := if resets then 0 else MaxLine(fs.entries);
    match c.read(start)
    case None => 0
    case Some(lines) =>
      |BatchesFor(cfg, NewEntries(cfg, lines, start), NextChunkNumber(if resets then [] else fs.chunks))|
  }

  lemma {:induction false} BudgetDoesNotCount(cfg: Config, fs: FileStore, inspected: Option<FileIdentity>,
                                              content: seq<string>, a: nat, b: nat)
    requires ValidConfig(cfg)
    ensures BatchCount(cfg, fs, Circumstances(inspected, Reader(content, true), a)) ==
              BatchCount(cfg, fs, Circumstances(inspected, Reader(content, true), b))
  {
  }

  lemma {:induction false} SaveRowsAbove(cfg: Config, base: FileStore, content: seq<string>, budget: nat)
    returns (m: nat)
    requires ValidConfig(cfg) && StrictlyAscending(base.entries)
    ensures var k := MaxLine(base.entries);
            var added := NewEntries(cfg, Seen(content, k), k);
            var batches := BatchesFor(cfg, added, NextChunkNumber(base.chunks));
            var saved := SaveAll(base, batches, budget);
            added == RowsAbove(cfg, content, k) && m <= |added| &&
            saved.fs.entries == base.entries + added[..m] && saved.fs.identity == base.identity &&
            (saved.complete <==> |batches| <= budget) && (saved.complete ==> m == |added|)
  {
    var k := MaxLine(base.entries);
    var added := RowsAbove(cfg, content, k);
    NewEntriesOfFile(cfg, content, k);
    RowsAboveContinue(cfg, base.entries, content);
    StrictlyAscendingParts(base.entries, added);
    var batches := BatchesFor(cfg, added, NextChunkNumber(base.chunks));
    BatchesPartition(cfg, added, NextChunkNumber(base.chunks));
    SaveAllKeepsIdentity(base, batches, budget);
    m := SaveAllSavesPrefix(base, batches, budget);
  }

  /** What one run does to any store and any file: it keeps the rows it builds on and adds the first `m` of the lines
      numbered above them. It succeeds exactly when the repository outlives its batches, and then it has added all of
      them and recorded the inspected identity. */
  lemma {:induction false} RunOnFile(cfg: Config, fs: FileStore, inspected: Option<FileIdentity>,
                                     content: seq<string>, budget: nat) returns (m: nat)
    requires ValidConfig(cfg) && StrictlyAscending(fs.entries)
    ensures var c := Circumstances(inspected, Reader(content, true), budget);
            var base, result := BaseStore(fs, c), Collect(cfg, fs, c);
            var added := RowsAbove(cfg, content, MaxLine(base.entries));
            m <= |added| && result.fs.entries == base.entries + added[..m] &&
            (result.outcome.Success? <==> BatchCount(cfg, fs, c) < budget) &&
            (result.outcome.Success? ==> m == |added| && result.outcome.value == |added|) &&
            result.fs.identity == (if result.outcome.Success? && inspected.Some? then inspected.value else fs.identity)
  {
    var base := BaseStore(fs, Circumstances(inspected, Reader(content, true), budget));
    m := SaveRowsAbove(cfg, base, content, budget);
  }

  // ---- Rows that are readings of one file ----

  /** What a stored row was computed from: `tails` holds, for lines that were last in the read that stored them, what
      they held at that time. */
  function StoredAs(content: seq<string>, tails: map<int, string>, n: int): string
    requires 1 <= n <= |content|
  {
    if n in tails then TrimRight(tails[n], IsSpace) else TrimRight(content[n - 1], IsReturn)
  }

  ghost predicate ReadingAt(cfg: Config, entries: seq<LogEntry>, content: seq<string>, tails: map<int, string>,
                            i: int) {
    0 <= i < |entries| <= |content| && (i + 1 in tails || i + 1 < |content|) &&
    entries[i] == EntryFor(cfg, Line(i + 1, StoredAs(content, tails, i + 1)))
  }

  ghost predicate TailAt(entries: seq<LogEntry>, content: seq<string>, tails: map<int, string>, n: int) {
    n in tails && 1 <= n <= |entries| <= |content| && tails[n] <= content[n - 1]
  }

  /** The rows are lines 1, 2, ... of this one file, each as some read saw it while the file grew to what it is. */
  ghost predicate Readings(cfg: Config, entries: seq<LogEntry>, content: seq<string>, tails: map<int, string>) {
    |entries| <= |content| && (forall i :: 0 <= i < |entries| ==> ReadingAt(cfg, entries, content, tails, i)) &&
    (forall n :: n in tails ==> TailAt(entries, content, tails, n))
  }

  ghost predicate HoldsReadings(cfg: Config, fs: FileStore, content: seq<string>) {
    exists tails :: Readings(cfg, fs.entries, content, tails)
  }

  lemma {:induction false} ReadingsAscend(cfg: Config, entries: seq<LogEntry>, content: seq<string>,
                                          tails: map<int, string>)
    requires Readings(cfg, entries, content, tails)
    ensures StrictlyAscending(entries) && MaxLine(entries) == |entries|
  {
    forall i, j | 0 <= i < j < |entries| ensures Before(entries, i, j) {
      assert ReadingAt(cfg, entries, content, tails, i) && ReadingAt(cfg, entries, content, tails, j);
    }
    if entries != [] {
      assert ReadingAt(cfg, entries, content, tails, |entries| - 1);
    }
  }

  /** Earlier rows of such a list. */
  lemma {:induction false} ReadingsPrefix(cfg: Config, entries: seq<LogEntry>, content: seq<string>,
                                          tails: map<int, string>, k: nat)
    requires Readings(cfg, entries, content, tails) && k <= |entries|
    ensures Readings(cfg, entries[..k], content, map n | n in tails && n <= k :: tails[n])
  {
    var tails' := map n | n in tails && n <= k :: tails[n];
    forall i | 0 <= i < k ensures ReadingAt(cfg, entries[..k], content, tails', i) {
      assert ReadingAt(cfg, entries, content, tails, i);
    }
    forall n | n in tails' ensures TailAt(entries[..k], content, tails', n) {
      assert TailAt(entries, content, tails, n);
    }
  }

  function TailsAfter(content: seq<string>, tails: map<int, string>, stored: nat): map<int, string> {
    if stored == |content| && stored > 0 then tails[stored := content[stored - 1]] else tails
  }

  /** The history variable after a run that found lines up to `before` and left lines up to `after`. */
  function TailsOf(content: seq<string>, tails: map<int, string>, before: int, after: nat): map<int, string> {
    if before < after then TailsAfter(content, tails, after) else tails
  }

  /** Reading on in the same file. */
  lemma {:induction false} ReadOn(cfg: Config, entries: seq<LogEntry>, content: seq<string>, tails: map<int, string>,
                                  m: nat)
    requires Readings(cfg, entries, content, tails) && m <= |RowsAbove(cfg, content, |entries|)|
    ensures var more := entries + RowsAbove(cfg, content, |entries|)[..m];
            Readings(cfg, more, content, if m > 0 then TailsAfter(content, tails, |more|) else tails)
  {
    var k := |entries|;
    var more := entries + RowsAbove(cfg, content, k)[..m];
    var tails' := if m > 0 then TailsAfter(content, tails, |more|) else tails;
    forall i | 0 <= i < |more| ensures ReadingAt(cfg, more, content, tails', i) {
      if i < k {
        assert ReadingAt(cfg, entries, content, tails, i);
      } else {
        assert i + 1 in tails ==> TailAt(entries, content, tails, i + 1);
      }
    }
    forall n | n in tails' ensures TailAt(more, content, tails', n) {
      assert n in tails ==> TailAt(entries, content, tails, n);
    }
  }

  // ---- Growth ----

  /** A file grows at its end: its last line may be completed, and lines may follow. */
  function Grown(content: seq<string>, rest: string, lines: seq<string>): seq<string> {
    if content == [] then lines
    else content[..|content| - 1] + [content[|content| - 1] + rest] + lines
  }

  lemma {:induction false} GrowthKeepsReadings(cfg: Config, entries: seq<LogEntry>, content: seq<string>,
                                               tails: map<int, string>, rest: string, lines: seq<string>)
    requires Readings(cfg, entries, content, tails)
    ensures Readings(cfg, entries, Grown(content, rest, lines), tails)
  {
    var content' := Grown(content, rest, lines);
    forall i | 0 <= i < |entries| ensures ReadingAt(cfg, entries, content', tails, i) {
      assert ReadingAt(cfg, entries, content, tails, i);
    }
    forall n | n in tails ensures TailAt(entries, content', tails, n) {
      assert TailAt(entries, content, tails, n);
    }
  }

  // ---- Whether a stored line still reads the same ----

  /** The line reads now as it did when it was stored. */
  predicate ReadsAsStored(content: seq<string>, tails: map<int, string>, n: int)
    requires 1 <= n <= |content|
  {
    SeenLine(content, n - 1) == StoredAs(content, tails, n)
  }

  /** Trailing white space that is more than returns. */
  predicate HasTrailingSpace(line: string) {
    TrimRight(line, IsReturn) != "" && IsSpace(TrimRight(line, IsReturn)[|TrimRight(line, IsReturn)| - 1])
  }

  lemma {:induction false} TrimReturnsFirst(s: string)
    ensures TrimRight(TrimRight(s, IsReturn), IsSpace) == TrimRight(s, IsSpace)
  {
    if s != "" && IsReturn(s[|s| - 1]) {
      TrimReturnsFirst(s[..|s| - 1]);
    }
  }

  lemma {:induction false} TrimsAlikeIff(s: string)
    ensures TrimRight(s, IsReturn) == TrimRight(s, IsSpace) <==> !HasTrailingSpace(s)
  {
    TrimReturnsFirst(s);
    LineOutput.TrimRightKeeps(TrimRight(s, IsReturn), IsSpace);
  }

  /** A line that was last when it was stored, and was not completed since, reads the same exactly if it is still last
      or has no trailing white space beyond returns. */
  lemma {:induction false} ReadsAsStoredIff(content: seq<string>, tails: map<int, string>, n: int)
    requires 1 <= n <= |content| && n in tails && tails[n] == content[n - 1]
    ensures ReadsAsStored(content, tails, n) <==> n == |content| || !HasTrailingSpace(content[n - 1])
  {
    TrimsAlikeIff(content[n - 1]);
  }

  /** A line that was not last when it was stored always reads the same. */
  lemma {:induction false} OtherLinesReadAsStored(cfg: Config, entries: seq<LogEntry>, content: seq<string>,
                                                  tails: map<int, string>, n: int)
    requires Readings(cfg, entries, content, tails) && 1 <= n <= |entries| && n !in tails
    ensures ReadsAsStored(content, tails, n)
  {
    assert ReadingAt(cfg, entries, content, tails, n - 1);
  }
}

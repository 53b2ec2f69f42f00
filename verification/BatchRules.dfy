/** Which rows the repository accepts, and with which error it refuses the others. */
module BatchRules {
  import opened Prelude
  import opened Models
  import opened Tables

  /** The check every new entry passes on its own. */
  function EntryProblem(t: Tables, e: LogEntry): Option<Error> {
    if e.logFileId !in t.logFiles then Some(NotFound)
    else if e.id != "" && e.id in t.entries then Some(Conflict)
    else if LineTaken(t, e.logFileId, e.lineNumber) then Some(Conflict)
    else None
  }

  function ChunkProblem(t: Tables, c: LogChunk): Option<Error> {
    if c.logFileId !in t.logFiles then Some(NotFound)
    else if c.id != "" && c.id in t.chunks then Some(Conflict)
    else if NumberTaken(t, c.logFileId, c.chunkNumber) then Some(Conflict)
    else None
  }

  predicate SameEntryIdOrLine(a: LogEntry, b: LogEntry) {
    (a.id != "" && a.id == b.id) || SameLine(a, b)
  }

  predicate SameChunkIdOrNumber(a: LogChunk, b: LogChunk) {
    (a.id != "" && a.id == b.id) || SameNumber(a, b)
  }

  predicate RepeatsEntry(es: seq<Option<LogEntry>>, j: nat, i: nat)
    requires j < |es| && i < |es|
  {
    es[j].Some? && es[i].Some? && SameEntryIdOrLine(es[j].value, es[i].value)
  }

  predicate RepeatsChunk(cs: seq<Option<LogChunk>>, j: nat, i: nat)
    requires j < |cs| && i < |cs|
  {
    cs[j].Some? && cs[i].Some? && SameChunkIdOrNumber(cs[j].value, cs[i].value)
  }

  /** The check of the i-th entry of an atomic batch: present, acceptable on its own, and not a repetition of an
      earlier row of the batch. */
  predicate EntryRejected(t: Tables, es: seq<Option<LogEntry>>, i: nat)
    requires i < |es|
  {
    es[i].None? || EntryProblem(t, es[i].value).Some? || exists j :: 0 <= j < i && RepeatsEntry(es, j, i)
  }

  predicate ChunkRejected(t: Tables, cs: seq<Option<LogChunk>>, i: nat)
    requires i < |cs|
  {
    cs[i].None? || ChunkProblem(t, cs[i].value).Some? || exists j :: 0 <= j < i && RepeatsChunk(cs, j, i)
  }

  ghost predicate BatchAccepted(t: Tables, es: seq<Option<LogEntry>>, cs: seq<Option<LogChunk>>) {
    (forall i :: 0 <= i < |es| ==> !EntryRejected(t, es, i)) && (forall i :: 0 <= i < |cs| ==> !ChunkRejected(t, cs, i))
  }

  /** Rows as stored: the given rows, with an id where they had none. */
  ghost predicate EntriesCompleted(es: seq<Option<LogEntry>>, stored: seq<LogEntry>) {
    |stored| == |es| && forall i :: 0 <= i < |es| ==>
      es[i].Some? && stored[i] == es[i].value.(id := stored[i].id) &&
        (es[i].value.id != "" ==> stored[i] == es[i].value)
  }

  ghost predicate ChunksCompleted(cs: seq<Option<LogChunk>>, stored: seq<LogChunk>) {
    |stored| == |cs| && forall i :: 0 <= i < |cs| ==>
      cs[i].Some? && stored[i] == cs[i].value.(id := stored[i].id) &&
        (cs[i].value.id != "" ==> stored[i] == cs[i].value)
  }

  /** The error that names the i-th row's rejection. */
  function EntryRejection(t: Tables, es: seq<Option<LogEntry>>, i: nat): Error
    requires i < |es|
  {
    if es[i].Some? && EntryProblem(t, es[i].value) == Some(NotFound) then NotFound else Conflict
  }

  function ChunkRejection(t: Tables, cs: seq<Option<LogChunk>>, i: nat): Error
    requires i < |cs|
  {
    if cs[i].Some? && ChunkProblem(t, cs[i].value) == Some(NotFound) then NotFound else Conflict
  }

  function EntryProblemAt(t: Tables, es: seq<Option<LogEntry>>, i: nat): Option<Error>
    requires i < |es|
  {
    if EntryRejected(t, es, i) then Some(EntryRejection(t, es, i)) else None
  }

  function ChunkProblemAt(t: Tables, cs: seq<Option<LogChunk>>, i: nat): Option<Error>
    requires i < |cs|
  {
    if ChunkRejected(t, cs, i) then Some(ChunkRejection(t, cs, i)) else None
  }

  function ExplicitEntryIds(es: seq<Option<LogEntry>>): set<string> {
    set i | 0 <= i < |es| && es[i].Some? :: es[i].value.id
  }

  function ExplicitChunkIds(cs: seq<Option<LogChunk>>): set<string> {
    set i | 0 <= i < |cs| && cs[i].Some? :: cs[i].value.id
  }

  /** An id the batch did not name itself is new to the table and to the batch. */
  ghost predicate EntryIdsFresh(t: Tables, es: seq<Option<LogEntry>>, stored: seq<LogEntry>)
    requires |stored| <= |es|
  {
    (forall i :: 0 <= i < |stored| ==> stored[i].id != "" && stored[i].id !in t.entries) &&
    (forall i, j :: 0 <= i < j < |stored| ==> stored[i].id != stored[j].id) &&
    (forall i :: 0 <= i < |stored| && es[i].Some? && es[i].value.id == "" ==> stored[i].id !in ExplicitEntryIds(es))
  }

  ghost predicate ChunkIdsFresh(t: Tables, cs: seq<Option<LogChunk>>, stored: seq<LogChunk>)
    requires |stored| <= |cs|
  {
    (forall i :: 0 <= i < |stored| ==> stored[i].id != "" && stored[i].id !in t.chunks) &&
    (forall i, j :: 0 <= i < j < |stored| ==> stored[i].id != stored[j].id) &&
    (forall i :: 0 <= i < |stored| && cs[i].Some? && cs[i].value.id == "" ==> stored[i].id !in ExplicitChunkIds(cs))
  }

  /** Accepted rows, completed with fresh ids, fit the tables. */
  lemma {:induction false} CompletedEntriesFit(t: Tables, es: seq<Option<LogEntry>>, stored: seq<LogEntry>)
    requires forall i :: 0 <= i < |es| ==> !EntryRejected(t, es, i)
    requires EntriesCompleted(es, stored) && EntryIdsFresh(t, es, stored)
    ensures EntriesFit(t, stored)
  {
    forall i | 0 <= i < |stored| ensures EntryFits(t, stored[i]) {
      assert !EntryRejected(t, es, i);
    }
    forall i, j | 0 <= i < j < |stored| ensures stored[i].id != stored[j].id && !SameLine(stored[i], stored[j]) {
      assert !EntryRejected(t, es, j);
      assert !RepeatsEntry(es, i, j);
    }
  }

  lemma {:induction false} CompletedChunksFit(t: Tables, cs: seq<Option<LogChunk>>, stored: seq<LogChunk>)
    requires forall i :: 0 <= i < |cs| ==> !ChunkRejected(t, cs, i)
    requires ChunksCompleted(cs, stored) && ChunkIdsFresh(t, cs, stored)
    ensures ChunksFit(t, stored)
  {
    forall i | 0 <= i < |stored| ensures ChunkFits(t, stored[i]) {
      assert !ChunkRejected(t, cs, i);
    }
    forall i, j | 0 <= i < j < |stored| ensures stored[i].id != stored[j].id && !SameNumber(stored[i], stored[j]) {
      assert !ChunkRejected(t, cs, j);
      assert !RepeatsChunk(cs, i, j);
    }
  }

  lemma {:induction false} NextEntryId(t: Tables, es: seq<Option<LogEntry>>, stored: seq<LogEntry>, next: LogEntry)
    requires |stored| < |es| && es[|stored|].Some? && !EntryRejected(t, es, |stored|)
    requires forall i :: 0 <= i < |stored| ==> es[i].Some? && (es[i].value.id != "" ==> stored[i] == es[i].value)
    requires EntryIdsFresh(t, es, stored)
    requires next.id != "" && (es[|stored|].value.id != "" ==> next == es[|stored|].value)
    requires es[|stored|].value.id == "" ==>
               next.id !in ExplicitEntryIds(es) && next.id !in PutEntries(t, stored).entries
    ensures EntryIdsFresh(t, es, stored + [next])
  {
    var n, e := |stored|, es[|stored|].value;
    forall i | 0 <= i < n ensures stored[i].id != next.id {
      if e.id == "" {
        EntryAfter(t, stored, stored[i].id);
      } else if es[i].value.id == "" {
        assert e.id in ExplicitEntryIds(es);
      } else {
        assert !RepeatsEntry(es, i, n);
      }
    }
    if e.id == "" {
      EntryAfter(t, stored, next.id);
    }
  }

  lemma {:induction false} NextChunkId(t: Tables, cs: seq<Option<LogChunk>>, stored: seq<LogChunk>, next: LogChunk)
    requires |stored| < |cs| && cs[|stored|].Some? && !ChunkRejected(t, cs, |stored|)
    requires forall i :: 0 <= i < |stored| ==> cs[i].Some? && (cs[i].value.id != "" ==> stored[i] == cs[i].value)
    requires ChunkIdsFresh(t, cs, stored)
    requires next.id != "" && (cs[|stored|].value.id != "" ==> next == cs[|stored|].value)
    requires cs[|stored|].value.id == "" ==>
               next.id !in ExplicitChunkIds(cs) && next.id !in PutChunks(t, stored).chunks
    ensures ChunkIdsFresh(t, cs, stored + [next])
  {
    var n, c := |stored|, cs[|stored|].value;
    forall i | 0 <= i < n ensures stored[i].id != next.id {
      if c.id == "" {
        ChunkAfter(t, stored, stored[i].id);
      } else if cs[i].value.id == "" {
        assert c.id in ExplicitChunkIds(cs);
      } else {
        assert !RepeatsChunk(cs, i, n);
      }
    }
    if c.id == "" {
      ChunkAfter(t, stored, next.id);
    }
  }

  lemma {:induction false} CompletedEntryFits(t: Tables, e: LogEntry, stored: seq<LogEntry>, next: LogEntry)
    requires EntryProblem(t, e).None? && next == e.(id := next.id)
    requires e.id != "" ==> next == e
    requires e.id == "" ==> next.id !in PutEntries(t, stored).entries
    ensures EntryFits(t, next)
  {
    EntryAfter(t, stored, next.id);
  }

  // ---- The sets a validator fills ----

  predicate EntrySeen(e: LogEntry, ids: set<string>, lines: set<(string, int)>) {
    (e.id != "" && e.id in ids) || (e.logFileId, e.lineNumber) in lines
  }

  predicate ChunkSeen(c: LogChunk, ids: set<string>, numbers: set<(string, int)>) {
    (c.id != "" && c.id in ids) || (c.logFileId, c.chunkNumber) in numbers
  }

  function SeenEntryIds(es: seq<Option<LogEntry>>, n: nat): set<string>
    requires n <= |es|
  {
    if n == 0 then {}
    else if es[n - 1].Some? && es[n - 1].value.id != "" then SeenEntryIds(es, n - 1) + {es[n - 1].value.id}
    else SeenEntryIds(es, n - 1)
  }

  function SeenLines(es: seq<Option<LogEntry>>, n: nat): set<(string, int)>
    requires n <= |es|
  {
    if n == 0 then {}
    else if es[n - 1].Some? then SeenLines(es, n - 1) + {(es[n - 1].value.logFileId, es[n - 1].value.lineNumber)}
    else SeenLines(es, n - 1)
  }

  lemma {:induction false} SeenEntryMembers(es: seq<Option<LogEntry>>, n: nat, e: LogEntry)
    requires n <= |es|
    ensures e.id in SeenEntryIds(es, n) <==>
              exists j :: 0 <= j < n && es[j].Some? && es[j].value.id != "" && es[j].value.id == e.id
    ensures (e.logFileId, e.lineNumber) in SeenLines(es, n) <==>
              exists j :: 0 <= j < n && es[j].Some? && SameLine(es[j].value, e)
  {
    if n > 0 {
      SeenEntryMembers(es, n - 1, e);
    }
  }

  /** The two sets are all a validator needs to remember. */
  lemma {:induction false} SeenDecidesEntry(t: Tables, es: seq<Option<LogEntry>>, n: nat)
    requires n < |es| && es[n].Some? && EntryProblem(t, es[n].value).None?
    ensures var e := es[n].value;
            EntryRejected(t, es, n) <==> EntrySeen(e, SeenEntryIds(es, n), SeenLines(es, n))
  {
    var e := es[n].value;
    SeenEntryMembers(es, n, e);
    if j :| 0 <= j < n && es[j].Some? && SameEntryIdOrLine(es[j].value, e) {
      assert RepeatsEntry(es, j, n);
    }
  }

  function SeenChunkIds(cs: seq<Option<LogChunk>>, n: nat): set<string>
    requires n <= |cs|
  {
    if n == 0 then {}
    else if cs[n - 1].Some? && cs[n - 1].value.id != "" then SeenChunkIds(cs, n - 1) + {cs[n - 1].value.id}
    else SeenChunkIds(cs, n - 1)
  }

  function SeenNumbers(cs: seq<Option<LogChunk>>, n: nat): set<(string, int)>
    requires n <= |cs|
  {
    if n == 0 then {}
    else if cs[n - 1].Some? then SeenNumbers(cs, n - 1) + {(cs[n - 1].value.logFileId, cs[n - 1].value.chunkNumber)}
    else SeenNumbers(cs, n - 1)
  }

  lemma {:induction false} SeenChunkMembers(cs: seq<Option<LogChunk>>, n: nat, c: LogChunk)
    requires n <= |cs|
    ensures c.id in SeenChunkIds(cs, n) <==>
              exists j :: 0 <= j < n && cs[j].Some? && cs[j].value.id != "" && cs[j].value.id == c.id
    ensures (c.logFileId, c.chunkNumber) in SeenNumbers(cs, n) <==>
              exists j :: 0 <= j < n && cs[j].Some? && SameNumber(cs[j].value, c)
  {
    if n > 0 {
      SeenChunkMembers(cs, n - 1, c);
    }
  }

  /** The two sets are all a validator needs to remember. */
  lemma {:induction false} SeenDecidesChunk(t: Tables, cs: seq<Option<LogChunk>>, n: nat)
    requires n < |cs| && cs[n].Some? && ChunkProblem(t, cs[n].value).None?
    ensures var c := cs[n].value;
            ChunkRejected(t, cs, n) <==> ChunkSeen(c, SeenChunkIds(cs, n), SeenNumbers(cs, n))
  {
    var c := cs[n].value;
    SeenChunkMembers(cs, n, c);
    if j :| 0 <= j < n && cs[j].Some? && SameChunkIdOrNumber(cs[j].value, c) {
      assert RepeatsChunk(cs, j, n);
    }
  }

  /** Chunk rules look only at log files and chunks. */
  lemma {:induction false} ChunkRulesIgnoreEntries(t: Tables, t': Tables, cs: seq<Option<LogChunk>>)
    requires OnlyEntriesDiffer(t, t')
    ensures forall i :: 0 <= i < |cs| ==> (ChunkRejected(t, cs, i) <==> ChunkRejected(t', cs, i))
  {
  }

  lemma {:induction false} ChunkFitIgnoresEntries(t: Tables, t': Tables, cs: seq<LogChunk>)
    requires OnlyEntriesDiffer(t, t') && ChunksFit(t', cs)
    ensures ChunksFit(t, cs)
  {
    forall i | 0 <= i < |cs| ensures ChunkFits(t, cs[i]) {
      assert ChunkFits(t', cs[i]);
    }
  }

  // ---- Verdicts and progress of the batch write ----

  /** The problem of the first rejected row among the first n, if any is rejected. */
  function EntriesProblem(t: Tables, es: seq<Option<LogEntry>>, n: nat): Option<Error>
    requires n <= |es|
  {
    if n == 0 then None
    else if EntriesProblem(t, es, n - 1).Some? then EntriesProblem(t, es, n - 1)
    else EntryProblemAt(t, es, n - 1)
  }

  function ChunksProblem(t: Tables, cs: seq<Option<LogChunk>>, n: nat): Option<Error>
    requires n <= |cs|
  {
    if n == 0 then None
    else if ChunksProblem(t, cs, n - 1).Some? then ChunksProblem(t, cs, n - 1)
    else ChunkProblemAt(t, cs, n - 1)
  }

  lemma {:induction false} EntriesProblemStays(t: Tables, es: seq<Option<LogEntry>>, m: nat, n: nat)
    requires m <= n <= |es| && EntriesProblem(t, es, m).Some?
    ensures EntriesProblem(t, es, n) == EntriesProblem(t, es, m)
  {
    if m < n {
      EntriesProblemStays(t, es, m, n - 1);
    }
  }

  lemma {:induction false} ChunksProblemStays(t: Tables, cs: seq<Option<LogChunk>>, m: nat, n: nat)
    requires m <= n <= |cs| && ChunksProblem(t, cs, m).Some?
    ensures ChunksProblem(t, cs, n) == ChunksProblem(t, cs, m)
  {
    if m < n {
      ChunksProblemStays(t, cs, m, n - 1);
    }
  }

  /** No problem means every row is accepted; a problem is the error of the first rejected row. */
  lemma {:induction false} EntriesProblemMeans(t: Tables, es: seq<Option<LogEntry>>, n: nat)
    requires n <= |es|
    ensures EntriesProblem(t, es, n).None? <==> forall i :: 0 <= i < n ==> !EntryRejected(t, es, i)
    ensures EntriesProblem(t, es, n).Some? ==>
              exists i: nat :: i < n && EntryRejected(t, es, i) &&
                (forall j :: 0 <= j < i ==> !EntryRejected(t, es, j)) &&
                               EntriesProblem(t, es, n).value == EntryRejection(t, es, i)
  {
    if n > 0 {
      EntriesProblemMeans(t, es, n - 1);
    }
  }

  lemma {:induction false} ChunksProblemMeans(t: Tables, cs: seq<Option<LogChunk>>, n: nat)
    requires n <= |cs|
    ensures ChunksProblem(t, cs, n).None? <==> forall i :: 0 <= i < n ==> !ChunkRejected(t, cs, i)
    ensures ChunksProblem(t, cs, n).Some? ==>
              exists i: nat :: i < n && ChunkRejected(t, cs, i) &&
                (forall j :: 0 <= j < i ==> !ChunkRejected(t, cs, j)) &&
                               ChunksProblem(t, cs, n).value == ChunkRejection(t, cs, i)
  {
    if n > 0 {
      ChunksProblemMeans(t, cs, n - 1);
    }
  }

  lemma {:induction false} AcceptedEntry(t: Tables, es: seq<Option<LogEntry>>, i: nat)
    requires i < |es| && EntriesProblem(t, es, |es|).None?
    ensures !EntryRejected(t, es, i)
  {
    EntriesProblemMeans(t, es, |es|);
  }

  lemma {:induction false} AcceptedChunk(t: Tables, cs: seq<Option<LogChunk>>, i: nat)
    requires i < |cs| && ChunksProblem(t, cs, |cs|).None?
    ensures !ChunkRejected(t, cs, i)
  {
    ChunksProblemMeans(t, cs, |cs|);
  }

  /** What the entry validator decides from the row and from what it has seen so far. */
  lemma {:induction false} EntryVerdictFromSeen(t: Tables, es: seq<Option<LogEntry>>, i: nat)
    requires i < |es|
    ensures EntryProblemAt(t, es, i) ==
              if es[i].None? then Some(Conflict)
              else if EntryProblem(t, es[i].value).Some? then EntryProblem(t, es[i].value)
              else if EntrySeen(es[i].value, SeenEntryIds(es, i), SeenLines(es, i)) then Some(Conflict)
              else None
  {
    if es[i].Some? && EntryProblem(t, es[i].value).None? {
      SeenDecidesEntry(t, es, i);
    }
  }

  /** What the chunk validator decides from the row and from what it has seen so far. */
  lemma {:induction false} ChunkVerdictFromSeen(t: Tables, cs: seq<Option<LogChunk>>, i: nat)
    requires i < |cs|
    ensures ChunkProblemAt(t, cs, i) ==
              if cs[i].None? then Some(Conflict)
              else if ChunkProblem(t, cs[i].value).Some? then ChunkProblem(t, cs[i].value)
              else if ChunkSeen(cs[i].value, SeenChunkIds(cs, i), SeenNumbers(cs, i)) then Some(Conflict)
              else None
  {
    if cs[i].Some? && ChunkProblem(t, cs[i].value).None? {
      SeenDecidesChunk(t, cs, i);
    }
  }

  ghost predicate EntriesStored(t: Tables, es: seq<Option<LogEntry>>, stored: seq<LogEntry>) {
    |stored| <= |es| && EntriesCompleted(es[..|stored|], stored) && EntryIdsFresh(t, es, stored)
  }

  ghost predicate ChunksStored(t: Tables, cs: seq<Option<LogChunk>>, stored: seq<LogChunk>) {
    |stored| <= |cs| && ChunksCompleted(cs[..|stored|], stored) && ChunkIdsFresh(t, cs, stored)
  }

  lemma {:induction false} StoreNextEntry(t: Tables, es: seq<Option<LogEntry>>, stored: seq<LogEntry>, next: LogEntry)
    requires |stored| < |es| && !EntryRejected(t, es, |stored|) && EntriesStored(t, es, stored)
    requires es[|stored|].Some? && next == es[|stored|].value.(id := next.id) && next.id != ""
    requires es[|stored|].value.id != "" ==> next == es[|stored|].value
    requires es[|stored|].value.id == "" ==>
               next.id !in ExplicitEntryIds(es) && next.id !in PutEntries(t, stored).entries
    ensures EntriesStored(t, es, stored + [next])
    ensures PutEntry(PutEntries(t, stored), next) == PutEntries(t, stored + [next])
  {
    forall i | 0 <= i < |stored| ensures es[i].Some? && (es[i].value.id != "" ==> stored[i] == es[i].value) {
      assert es[..|stored|][i] == es[i];
    }
    NextEntryId(t, es, stored, next);
    assert (stored + [next])[..|stored|] == stored;
  }

  lemma {:induction false} StoreNextChunk(t: Tables, cs: seq<Option<LogChunk>>, stored: seq<LogChunk>, next: LogChunk)
    requires |stored| < |cs| && !ChunkRejected(t, cs, |stored|) && ChunksStored(t, cs, stored)
    requires cs[|stored|].Some? && next == cs[|stored|].value.(id := next.id) && next.id != ""
    requires cs[|stored|].value.id != "" ==> next == cs[|stored|].value
    requires cs[|stored|].value.id == "" ==>
               next.id !in ExplicitChunkIds(cs) && next.id !in PutChunks(t, stored).chunks
    ensures ChunksStored(t, cs, stored + [next])
    ensures PutChunk(PutChunks(t, stored), next) == PutChunks(t, stored + [next])
  {
    assert ChunkIdsFresh(t, cs, stored + [next]) by {
      forall i | 0 <= i < |stored| ensures cs[i].Some? && (cs[i].value.id != "" ==> stored[i] == cs[i].value) {
        assert cs[..|stored|][i] == cs[i];
      }
      NextChunkId(t, cs, stored, next);
    }
    CompleteNextChunk(cs, stored, next);
    assert (stored + [next])[..|stored|] == stored;
  }

  lemma {:induction false} CompleteNextChunk(cs: seq<Option<LogChunk>>, stored: seq<LogChunk>, next: LogChunk)
    requires |stored| < |cs| && ChunksCompleted(cs[..|stored|], stored)
    requires cs[|stored|].Some? && next == cs[|stored|].value.(id := next.id)
    requires cs[|stored|].value.id != "" ==> next == cs[|stored|].value
    ensures ChunksCompleted(cs[..|stored + [next]|], stored + [next])
  {
    forall i | 0 <= i < |stored| ensures cs[i] == cs[..|stored|][i] {
    }
  }

  /** The verdict on a whole batch: entries are looked at first. */
  function BatchProblem(t: Tables, es: seq<Option<LogEntry>>, cs: seq<Option<LogChunk>>): Option<Error> {
    if EntriesProblem(t, es, |es|).Some? then EntriesProblem(t, es, |es|) else ChunksProblem(t, cs, |cs|)
  }

  lemma {:induction false} BatchProblemMeans(t: Tables, es: seq<Option<LogEntry>>, cs: seq<Option<LogChunk>>)
    ensures BatchProblem(t, es, cs).None? <==> BatchAccepted(t, es, cs)
  {
    EntriesProblemMeans(t, es, |es|);
    ChunksProblemMeans(t, cs, |cs|);
  }

  /** All the rows of the batch were added, completed with fresh ids, and nothing else changed. */
  ghost predicate BatchWritten(t: Tables, es: seq<Option<LogEntry>>, cs: seq<Option<LogChunk>>,
                               stored: seq<LogEntry>, storedChunks: seq<LogChunk>, t': Tables)
  {
    EntriesCompleted(es, stored) && ChunksCompleted(cs, storedChunks) &&
    EntriesFit(t, stored) && ChunksFit(t, storedChunks) &&
    t' == PutChunks(PutEntries(t, stored), storedChunks)
  }

  lemma {:induction false} AcceptedEntriesFit(t: Tables, es: seq<Option<LogEntry>>, stored: seq<LogEntry>)
    requires EntriesProblem(t, es, |es|).None? && EntriesStored(t, es, stored) && |stored| == |es|
    ensures EntriesCompleted(es, stored) && EntriesFit(t, stored)
  {
    assert es[..|es|] == es;
    EntriesProblemMeans(t, es, |es|);
    CompletedEntriesFit(t, es, stored);
  }

  lemma {:induction false} AcceptedChunksFit(t: Tables, cs: seq<Option<LogChunk>>, stored: seq<LogChunk>)
    requires ChunksProblem(t, cs, |cs|).None? && ChunksStored(t, cs, stored) && |stored| == |cs|
    ensures ChunksCompleted(cs, stored) && ChunksFit(t, stored)
  {
    assert cs[..|cs|] == cs;
    ChunksProblemMeans(t, cs, |cs|);
    CompletedChunksFit(t, cs, stored);
  }

  lemma {:induction false} ChunksProblemIgnoresEntries(t: Tables, t': Tables, cs: seq<Option<LogChunk>>, n: nat)
    requires OnlyEntriesDiffer(t, t') && n <= |cs|
    ensures ChunksProblem(t, cs, n) == ChunksProblem(t', cs, n)
  {
    if n > 0 {
      ChunksProblemIgnoresEntries(t, t', cs, n - 1);
      ChunkRulesIgnoreEntries(t, t', cs);
    }
  }

  /** A written batch leaves consistent tables. */
  lemma {:induction false} WrittenBatchFits(t: Tables, es: seq<Option<LogEntry>>, cs: seq<Option<LogChunk>>,
                         stored: seq<LogEntry>, storedChunks: seq<LogChunk>)
    requires Consistent(t) && BatchProblem(t, es, cs).None?
    requires EntriesStored(t, es, stored) && |stored| == |es|
    requires ChunksStored(PutEntries(t, stored), cs, storedChunks) && |storedChunks| == |cs|
    ensures var t' := PutChunks(PutEntries(t, stored), storedChunks);
            BatchWritten(t, es, cs, stored, storedChunks, t') && Consistent(t') && t'.servers == t.servers
  {
    AcceptedEntriesFit(t, es, stored);
    PutEntriesKeepsConsistent(t, stored);
    var mid := PutEntries(t, stored);
    ChunksProblemIgnoresEntries(t, mid, cs, |cs|);
    AcceptedChunksFit(mid, cs, storedChunks);
    PutChunksKeepsConsistent(mid, storedChunks);
    ChunkFitIgnoresEntries(t, mid, storedChunks);
  }

  lemma {:induction false} NumberTakenInList(t: Tables, c: LogChunk)
    requires ChunksIndexed(t.logFiles.Keys, t.chunks, t.chunksByLogFile)
    ensures NumberTaken(t, c.logFileId, c.chunkNumber) <==>
              c.logFileId in t.chunksByLogFile &&
              exists k :: 0 <= k < |t.chunksByLogFile[c.logFileId]| &&
                          t.chunks[t.chunksByLogFile[c.logFileId][k]].chunkNumber == c.chunkNumber
  {
    if id :| id in t.chunks && t.chunks[id].logFileId == c.logFileId && t.chunks[id].chunkNumber == c.chunkNumber {
      var ids := t.chunksByLogFile[c.logFileId];
      var k :| 0 <= k < |ids| && ids[k] == id;
    }
  }

  // ---- The chunk insert that checks as it goes ----

  function Given<T>(s: seq<T>): seq<Option<T>> {
    seq(|s|, i requires 0 <= i < |s| => Some(s[i]))
  }

  ghost predicate AllAcceptableAlone(t: Tables, cs: seq<LogChunk>) {
    forall i :: 0 <= i < |cs| ==> ChunkProblem(t, cs[i]).None?
  }

  ghost predicate StoredSoFar(t: Tables, cs: seq<LogChunk>, stored: seq<LogChunk>) {
    ChunksStored(t, Given(cs), stored) && forall k :: 0 <= k < |stored| ==> !ChunkRejected(t, Given(cs), k)
  }

  /** The rows stored before the first repetition: nothing when some row is not acceptable on its own. */
  ghost predicate AppliedPrefix(t: Tables, cs: seq<LogChunk>, stored: seq<LogChunk>) {
    StoredSoFar(t, cs, stored) && (!AllAcceptableAlone(t, cs) ==> stored == []) &&
    (AllAcceptableAlone(t, cs) && |stored| < |cs| ==> ChunkRejected(t, Given(cs), |stored|))
  }

  /** After some rows of a list were stored, the table itself knows whether the next one repeats an earlier one. */
  lemma {:induction false} TableKnowsRepetitions(t: Tables, cs: seq<LogChunk>, stored: seq<LogChunk>)
    requires |stored| < |cs| && ChunksStored(t, Given(cs), stored) && ChunkProblem(t, cs[|stored|]).None?
    ensures ChunkProblem(PutChunks(t, stored), cs[|stored|]).Some? <==> ChunkRejected(t, Given(cs), |stored|)
  {
    var n, c, t' := |stored|, cs[|stored|], PutChunks(t, stored);
    StoredChunksMatch(cs, stored);
    ChunkAfter(t, stored, c.id);
    if j :| 0 <= j < n && RepeatsChunk(Given(cs), j, n) {
      StoredChunkIsFound(t, cs, stored, j);
    }
    if id :| id in t'.chunks && SameNumber(t'.chunks[id], c) {
      ChunkAfter(t, stored, id);
      if j :| 0 <= j < n && stored[j].id == id && t'.chunks[id] == stored[j] {
        assert RepeatsChunk(Given(cs), j, n);
      }
    }
    if c.id != "" && c.id in t'.chunks {
      var j :| 0 <= j < n && stored[j].id == c.id;
      StoredIdWasGiven(t, cs, stored, j);
      assert RepeatsChunk(Given(cs), j, n);
    }
  }

  lemma {:induction false} StoreNextGiven(t: Tables, cs: seq<LogChunk>, stored: seq<LogChunk>, next: LogChunk)
    requires |stored| < |cs| && StoredSoFar(t, cs, stored) && !ChunkRejected(t, Given(cs), |stored|)
    requires next == cs[|stored|].(id := next.id) && next.id != "" && (cs[|stored|].id != "" ==> next == cs[|stored|])
    requires cs[|stored|].id == "" ==>
               next.id !in ExplicitChunkIds(Given(cs)) && next.id !in PutChunks(t, stored).chunks
    ensures StoredSoFar(t, cs, stored + [next])
    ensures PutChunk(PutChunks(t, stored), next) == PutChunks(t, stored + [next])
  {
    assert Given(cs)[|stored|] == Some(cs[|stored|]);
    StoreNextChunk(t, Given(cs), stored, next);
  }

  lemma {:induction false} StoredChunksMatch(cs: seq<LogChunk>, stored: seq<LogChunk>)
    requires |stored| <= |cs| && ChunksCompleted(Given(cs)[..|stored|], stored)
    ensures forall j :: 0 <= j < |stored| ==> stored[j] == cs[j].(id := stored[j].id)
    ensures forall j :: 0 <= j < |stored| && cs[j].id != "" ==> stored[j] == cs[j]
  {
    forall j | 0 <= j < |stored| ensures Given(cs)[..|stored|][j] == Some(cs[j]) {
    }
  }

  lemma {:induction false} StoredIdWasGiven(t: Tables, cs: seq<LogChunk>, stored: seq<LogChunk>, j: nat)
    requires ChunksStored(t, Given(cs), stored) && j < |stored| < |cs| && stored[j].id == cs[|stored|].id
    ensures cs[j].id == stored[j].id
  {
    StoredChunksMatch(cs, stored);
    assert Given(cs)[|stored|].value.id in ExplicitChunkIds(Given(cs));
  }

  lemma {:induction false} StoredChunkIsFound(t: Tables, cs: seq<LogChunk>, stored: seq<LogChunk>, j: nat)
    requires ChunksStored(t, Given(cs), stored) && j < |stored|
    ensures stored[j].id in PutChunks(t, stored).chunks && PutChunks(t, stored).chunks[stored[j].id] == stored[j]
    ensures SameNumber(stored[j], cs[j]) && (cs[j].id != "" ==> stored[j].id == cs[j].id)
  {
    StoredChunksMatch(cs, stored);
    ChunkAfter(t, stored, stored[j].id);
  }
}

/** The in-memory repository: nine maps updated in place. */
module Storage {
  import opened Prelude
  import opened Models
  import opened Tables
  import opened TableOps
  import opened Views
  import opened BatchRules
  import opened InsertRules
  import Chunking
  import Collector
  import Sorting

  ghost function AtLeastAsLong(ids: set<string>, n: nat): set<string> {
    set s | s in ids && |s| >= n
  }

  lemma {:induction false} LongerIsFewer(ids: set<string>, id: string, longer: string)
    requires id in ids && |longer| > |id|
    ensures AtLeastAsLong(ids, |longer|) < AtLeastAsLong(ids, |id|)
  {
    assert id in AtLeastAsLong(ids, |id|) && id !in AtLeastAsLong(ids, |longer|);
  }

  // ---- Loops over rows ----

  method RemoveRows<R>(rows: map<string, R>, ids: seq<string>) returns (left: map<string, R>)
    ensures left == rows - Elements(ids)
  {
    left := rows;
    for i := 0 to |ids|
      invariant left == rows - Elements(ids[..i])
    {
      ElementsNext(ids, i);
      left := left - {ids[i]};
    }
    assert ids[..|ids|] == ids;
  }

  method Lookup<R>(rows: map<string, R>, ids: seq<string>) returns (items: seq<R>)
    requires forall i :: 0 <= i < |ids| ==> ids[i] in rows
    ensures |items| == |ids| && forall i :: 0 <= i < |ids| ==> items[i] == rows[ids[i]]
  {
    items := [];
    for i := 0 to |ids|
      invariant |items| == i && forall k :: 0 <= k < i ==> items[k] == rows[ids[k]]
    {
      items := items + [rows[ids[i]]];
    }
  }

  method LookupLines(rows: map<string, LogEntry>, byLine: map<int, string>, lines: seq<int>)
    returns (items: seq<LogEntry>)
    requires forall i :: 0 <= i < |lines| ==> lines[i] in byLine && byLine[lines[i]] in rows
    ensures |items| == |lines| && forall i :: 0 <= i < |lines| ==> items[i] == rows[byLine[lines[i]]]
  {
    items := [];
    for i := 0 to |lines|
      invariant |items| == i && forall k :: 0 <= k < i ==> items[k] == rows[byLine[lines[k]]]
    {
      items := items + [rows[byLine[lines[i]]]];
    }
  }

  method SelectRange(all: seq<LogEntry>, from: int, to: int) returns (items: seq<LogEntry>)
    ensures items == Chunking.InRange(all, from, to)
  {
    items := [];
    for i := 0 to |all|
      invariant items == Chunking.InRange(all[..i], from, to)
    {
      assert all[..i + 1][..i] == all[..i];
      if all[i].lineNumber >= from && all[i].lineNumber <= to {
        items := items + [all[i]];
      }
    }
    assert all[..|all|] == all;
  }

  method SelectFiles(rows: map<string, LogFile>, ids: seq<string>, serverId: string) returns (items: seq<LogFile>)
    requires NoDuplicates(ids) && Elements(ids) == rows.Keys && forall id :: id in rows ==> rows[id].id == id
    ensures NoDuplicates(items)
    ensures forall f :: f in items <==> f.id in ids && f.id in rows && rows[f.id] == f && f.serverId == serverId
  {
    items := [];
    for i := 0 to |ids|
      invariant NoDuplicates(items)
      invariant forall f :: f in items <==>
                  f.id in ids[..i] && f.id in rows && rows[f.id] == f && f.serverId == serverId
    {
      assert ids[i] in Elements(ids) && ids[i] !in ids[..i];
      assert ids[..i + 1] == ids[..i] + [ids[i]];
      var item := rows[ids[i]];
      if item.serverId == serverId {
        items := items + [item];
      }
    }
    assert ids[..|ids|] == ids;
  }

  method MaxKey(byLine: map<int, string>) returns (m: int)
    ensures m >= 0 && (m == 0 || m in byLine) && forall line :: line in byLine ==> line <= m
  {
    var lines := InSomeOrder(byLine.Keys);
    m := 0;
    for i := 0 to |lines|
      invariant m >= 0 && (m == 0 || m in byLine)
      invariant forall k :: 0 <= k < i ==> lines[k] <= m
    {
      assert lines[i] in Elements(lines);
      if lines[i] > m {
        m := lines[i];
      }
    }
    forall line | line in byLine ensures line <= m {
      assert line in Elements(lines);
    }
  }

  /** The path of a log file leaves the index, and with the last path its server. */
  method WithoutPath(index: FileIndex, f: LogFile) returns (left: FileIndex)
    requires f.serverId in index
    ensures left == RemovePath(index, f.serverId, f.path)
  {
    var byPath := index[f.serverId] - {f.path};
    if byPath == map[] {
      left := index - {f.serverId};
    } else {
      left := index[f.serverId := byPath];
    }
  }

  /** A server created without a status is inactive, and one created without a manager is managed by the API. */
  function WithDefaults(s: Server): (r: Server)
    ensures r.status != UnsetStatus && r.managedBy != "" && s == r.(status := s.status, managedBy := s.managedBy)
    ensures r.status == (if s.status == UnsetStatus then ServerInactive else s.status)
    ensures r.managedBy == (if s.managedBy == "" then "api" else s.managedBy)
  {
    s.(status := if s.status == UnsetStatus then ServerInactive else s.status,
       managedBy := if s.managedBy == "" then MANAGED_BY_API else s.managedBy)
  }

  /** Updating keeps the status it is given, and defaults the manager only. */
  function Managed(s: Server): (r: Server)
    ensures s == r.(managedBy := s.managedBy) && r.managedBy == (if s.managedBy == "" then "api" else s.managedBy)
  {
    s.(managedBy := if s.managedBy == "" then MANAGED_BY_API else s.managedBy)
  }

  class Store {
    /** Case folding of names and hosts; the model works for any. */
    const fold: string -> string

    var servers: map<string, Server>
    var logFiles: map<string, LogFile>
    var logFilesByServer: FileIndex
    var entries: map<string, LogEntry>
    var entriesByLogFile: LineIndex
    var chunks: map<string, LogChunk>
    var chunksByLogFile: ListIndex
    var checks: map<string, CheckResult>
    var checksByLogFile: ListIndex

    ghost function State(): Tables
      reads this
    {
      Tables(servers, logFiles, logFilesByServer, entries, entriesByLogFile, chunks, chunksByLogFile, checks,
             checksByLogFile)
    }

    ghost predicate Valid()
      reads this
    {
      Consistent(State()) && ServersDistinct(servers, fold)
    }

    constructor (fold: string -> string)
      ensures this.fold == fold && State() == NO_TABLES && Valid()
    {
      this.fold := fold;
      servers, logFiles, logFilesByServer := map[], map[], map[];
      entries, entriesByLogFile := map[], map[];
      chunks, chunksByLogFile := map[], map[];
      checks, checksByLogFile := map[], map[];
    }

    /** A fresh identifier: the source draws it at random and never twice. */
    method NewId(reserved: set<string>) returns (id: string)
      ensures id != "" && id !in reserved
      ensures id !in servers && id !in logFiles && id !in entries && id !in chunks && id !in checks
    {
      ghost var used := reserved + servers.Keys + logFiles.Keys + entries.Keys + chunks.Keys + checks.Keys;
      id := "id";
      while id in reserved || id in servers || id in logFiles || id in entries || id in chunks || id in checks
        invariant id != ""
        decreases AtLeastAsLong(used, |id|)
      {
        LongerIsFewer(used, id, id + "0");
        id := id + "0";
      }
    }

    // ---- Entries ----

    /** Storing one validated entry. */
    method StoreLogEntry(e: LogEntry, reserved: set<string>) returns (stored: LogEntry)
      modifies this
      ensures State() == PutEntry(old(State()), stored)
      ensures stored == e.(id := stored.id) && stored.id != "" && (e.id != "" ==> stored == e)
      ensures e.id == "" ==> stored.id !in reserved && stored.id !in old(entries)
    {
      stored := e;
      if e.id == "" {
        var id := NewId(reserved);
        stored := e.(id := id);
      }
      entries := entries[stored.id := stored];
      entriesByLogFile := AddLine(entriesByLogFile, stored);
    }

    method StoreLogChunk(c: LogChunk, reserved: set<string>) returns (stored: LogChunk)
      modifies this
      ensures State() == PutChunk(old(State()), stored)
      ensures stored == c.(id := stored.id) && stored.id != "" && (c.id != "" ==> stored == c)
      ensures c.id == "" ==> stored.id !in reserved && stored.id !in old(chunks)
    {
      stored := c;
      if c.id == "" {
        var id := NewId(reserved);
        stored := c.(id := id);
      }
      chunks := chunks[stored.id := stored];
      chunksByLogFile := AddToList(chunksByLogFile, stored.logFileId, stored.id);
    }

    /** Checking a batch of entries without applying any of it. */
    method ValidateLogEntryBatch(es: seq<Option<LogEntry>>) returns (problem: Option<Error>)
      ensures problem == EntriesProblem(State(), es, |es|)
    {
      var ids: set<string> := {};
      var lines: set<(string, int)> := {};
      ghost var t := State();
      for i := 0 to |es|
        invariant EntriesProblem(t, es, i).None?
        invariant ids == SeenEntryIds(es, i)
        invariant lines == SeenLines(es, i)
      {
        problem := ValidateBatchEntry(es, i, ids, lines);
        if problem.Some? {
          assert problem == EntriesProblem(t, es, |es|) by {
            EntriesProblemStays(t, es, i + 1, |es|);
          }
          return;
        }
        if es[i].value.id != "" {
          ids := ids + {es[i].value.id};
        }
        lines := lines + {(es[i].value.logFileId, es[i].value.lineNumber)};
      }
      return None;
    }

    /** One entry of a batch, against the tables and against the ids and lines seen earlier in the batch. */
    method ValidateBatchEntry(es: seq<Option<LogEntry>>, i: nat, ids: set<string>, lines: set<(string, int)>)
      returns (problem: Option<Error>)
      requires i < |es| && EntriesProblem(State(), es, i).None?
      requires ids == SeenEntryIds(es, i) && lines == SeenLines(es, i)
      ensures problem == EntriesProblem(State(), es, i + 1)
      ensures problem.None? ==> es[i].Some?
    {
      EntryVerdictFromSeen(State(), es, i);
      if es[i].None? {
        return Some(Conflict);
      }
      var e := es[i].value;
      problem := ValidateLogEntry(e);
      if problem.Some? {
        return;
      }
      if (e.id != "" && e.id in ids) || (e.logFileId, e.lineNumber) in lines {
        return Some(Conflict);
      }
    }

    method ValidateLogEntry(e: LogEntry) returns (problem: Option<Error>)
      ensures problem == EntryProblem(State(), e)
      ensures problem == Some(NotFound) <==> e.logFileId !in logFiles
      ensures problem == Some(Conflict) <==>
                e.logFileId in logFiles &&
                ((e.id != "" && e.id in entries) || LineTaken(State(), e.logFileId, e.lineNumber))
    {
      if e.logFileId !in logFiles {
        return Some(NotFound);
      }
      if e.id != "" && e.id in entries {
        return Some(Conflict);
      }
      if e.logFileId in entriesByLogFile && e.lineNumber in entriesByLogFile[e.logFileId] {
        return Some(Conflict);
      }
      return None;
    }

    /** Checking a batch of chunks without applying any of it. */
    method ValidateLogChunkBatch(cs: seq<Option<LogChunk>>) returns (problem: Option<Error>)
      requires ChunksIndexed(logFiles.Keys, chunks, chunksByLogFile)
      ensures problem == ChunksProblem(State(), cs, |cs|)
    {
      var ids: set<string> := {};
      var numbers: set<(string, int)> := {};
      ghost var t := State();
      for i := 0 to |cs|
        invariant ChunksProblem(t, cs, i).None?
        invariant ids == SeenChunkIds(cs, i)
        invariant numbers == SeenNumbers(cs, i)
      {
        problem := ValidateBatchChunk(cs, i, ids, numbers);
        if problem.Some? {
          assert problem == ChunksProblem(t, cs, |cs|) by {
            ChunksProblemStays(t, cs, i + 1, |cs|);
          }
          return;
        }
        if cs[i].value.id != "" {
          ids := ids + {cs[i].value.id};
        }
        numbers := numbers + {(cs[i].value.logFileId, cs[i].value.chunkNumber)};
      }
      return None;
    }

    /** One chunk of a batch, against the tables and against the ids and numbers seen earlier in the batch. */
    method ValidateBatchChunk(cs: seq<Option<LogChunk>>, i: nat, ids: set<string>, numbers: set<(string, int)>)
      returns (problem: Option<Error>)
      requires ChunksIndexed(logFiles.Keys, chunks, chunksByLogFile)
      requires i < |cs| && ChunksProblem(State(), cs, i).None?
      requires ids == SeenChunkIds(cs, i) && numbers == SeenNumbers(cs, i)
      ensures problem == ChunksProblem(State(), cs, i + 1)
      ensures problem.None? ==> cs[i].Some?
    {
      ChunkVerdictFromSeen(State(), cs, i);
      if cs[i].None? {
        return Some(Conflict);
      }
      var c := cs[i].value;
      problem := ValidateLogChunk(c);
      if problem.Some? {
        return;
      }
      if (c.id != "" && c.id in ids) || (c.logFileId, c.chunkNumber) in numbers {
        return Some(Conflict);
      }
    }

    /** Looks through the log file's chunk list for the number. */
    method ValidateLogChunk(c: LogChunk) returns (problem: Option<Error>)
      requires ChunksIndexed(logFiles.Keys, chunks, chunksByLogFile)
      ensures problem == ChunkProblem(State(), c)
      ensures problem == Some(NotFound) <==> c.logFileId !in logFiles
      ensures problem == Some(Conflict) <==>
                c.logFileId in logFiles &&
                ((c.id != "" && c.id in chunks) || NumberTaken(State(), c.logFileId, c.chunkNumber))
    {
      NumberTakenInList(State(), c);
      if c.logFileId !in logFiles {
        return Some(NotFound);
      }
      if c.id != "" && c.id in chunks {
        return Some(Conflict);
      }
      if c.logFileId in chunksByLogFile {
        var ids := chunksByLogFile[c.logFileId];
        for i := 0 to |ids|
          invariant forall k :: 0 <= k < i ==> chunks[ids[k]].chunkNumber != c.chunkNumber
        {
          if chunks[ids[i]].chunkNumber == c.chunkNumber {
            return Some(Conflict);
          }
        }
      }
      return None;
    }

    /** The atomic batch write: every map stays as it was, or exactly the given rows are added. */
    method CreateLogEntriesWithChunks(es: seq<Option<LogEntry>>, cs: seq<Option<LogChunk>>)
      returns (r: Outcome<Chunking.Batch>)
      requires Valid()
      modifies this
      ensures Valid()
      ensures r.Success? <==> BatchAccepted(old(State()), es, cs)
      ensures r.Success? ==> BatchWritten(old(State()), es, cs, r.value.entries, r.value.chunks, State())
      ensures r.Failure? ==> State() == old(State()) && Some(r.error) == BatchProblem(old(State()), es, cs)
    {
      BatchProblemMeans(State(), es, cs);
      var problem := ValidateLogEntryBatch(es);
      if problem.Some? {
        return Failure(problem.value);
      }
      problem := ValidateLogChunkBatch(cs);
      if problem.Some? {
        return Failure(problem.value);
      }
      ghost var t := State();
      var storedEntries := StoreEntries(es);
      ghost var mid := State();
      assert ChunksProblem(mid, cs, |cs|).None? by {
        OtherTablesAfter(t, storedEntries);
        ChunksProblemIgnoresEntries(t, mid, cs, |cs|);
      }
      var storedChunks := StoreChunks(cs);
      WrittenBatchFits(t, es, cs, storedEntries, storedChunks);
      return Success(Chunking.Batch(storedEntries, storedChunks));
    }

    method StoreEntries(es: seq<Option<LogEntry>>) returns (stored: seq<LogEntry>)
      requires EntriesProblem(State(), es, |es|).None?
      modifies this
      ensures State() == PutEntries(old(State()), stored)
      ensures |stored| == |es| && EntriesStored(old(State()), es, stored)
    {
      stored := [];
      ghost var t := State();
      var reserved := ExplicitEntryIds(es);
      for i := 0 to |es|
        invariant |stored| == i && EntriesStored(t, es, stored) && State() == PutEntries(t, stored)
      {
        AcceptedEntry(t, es, i);
        var one := StoreLogEntry(es[i].value, reserved);
        StoreNextEntry(t, es, stored, one);
        stored := stored + [one];
      }
    }

    method StoreChunks(cs: seq<Option<LogChunk>>) returns (stored: seq<LogChunk>)
      requires ChunksProblem(State(), cs, |cs|).None?
      modifies this
      ensures State() == PutChunks(old(State()), stored)
      ensures |stored| == |cs| && ChunksStored(old(State()), cs, stored)
    {
      stored := [];
      ghost var t := State();
      var reserved := ExplicitChunkIds(cs);
      for i := 0 to |cs|
        invariant |stored| == i && ChunksStored(t, cs, stored) && State() == PutChunks(t, stored)
      {
        AcceptedChunk(t, cs, i);
        var one := StoreLogChunk(cs[i].value, reserved);
        StoreNextChunk(t, cs, stored, one);
        stored := stored + [one];
      }
    }

    // ---- Reading entries ----

    method ListLogEntries(file: string, offset: int, limit: int) returns (items: seq<LogEntry>)
      requires Valid()
      ensures items == Page(EntryRows(State(), file), offset, limit)
    {
      items := ListAllEntries(file);
      items := Page(items, offset, limit);
    }

    method ListAllEntries(file: string) returns (items: seq<LogEntry>)
      requires Valid()
      ensures items == EntryRows(State(), file)
    {
      var byLine := if file in entriesByLogFile then entriesByLogFile[file] else map[];
      var lines := InSomeOrder(byLine.Keys);
      ListedIdsResolve(State(), file, lines);
      items := LookupLines(entries, byLine, lines);
      assert RowsInOrder(State(), file, lines, items);
      SortedRowsAreEntryRows(State(), file, lines, items);
      items := Sorting.Sort(items, EarlierLine);
    }

    method ListLogEntriesByLineRange(file: string, from: int, to: int) returns (items: seq<LogEntry>)
      requires Valid()
      ensures items == Chunking.InRange(EntryRows(State(), file), from, to)
    {
      var all := ListAllEntries(file);
      items := SelectRange(all, from, to);
    }

    method GetMaxLineNumber(file: string) returns (maxLine: int)
      requires Valid()
      ensures maxLine == Collector.MaxLine(EntryRows(State(), file))
    {
      var byLine := if file in entriesByLogFile then entriesByLogFile[file] else map[];
      maxLine := MaxKey(byLine);
      MaxLineIs(State(), file, maxLine);
    }

    method CountLogEntries(file: string) returns (count: nat)
      requires Valid()
      ensures count == |EntryRows(State(), file)|
    {
      EntryRowsFacts(State(), file);
      count := if file in entriesByLogFile then |entriesByLogFile[file]| else 0;
    }

    /** Batch insert without the in-batch duplicate check. Each entry is checked against the tables only, so the
        repository stays valid exactly if repetitions inside the list are harmless. */
    method CreateLogEntries(es: seq<LogEntry>) returns (r: Outcome<seq<LogEntry>>)
      requires Valid()
      modifies this
      ensures r.Success? <==> forall i :: 0 <= i < |es| ==> EntryProblem(old(State()), es[i]).None?
      ensures r.Failure? ==> State() == old(State())
      ensures r.Success? ==> State() == PutEntries(old(State()), r.value)
      ensures r.Success? ==> Completes(es, r.value) && NewIds(es, r.value)
      ensures r.Success? ==> (Valid() <==> AllRepeatHarmlessly(es))
    {
      var problem := ValidateEachLogEntry(es);
      if problem.Some? {
        return Failure(problem.value);
      }
      ghost var t := State();
      var stored := StoreEachLogEntry(es);
      InsertKeepsConsistentIff(t, es, stored);
      OtherTablesAfter(t, stored);
      return Success(stored);
    }

    method ValidateEachLogEntry(es: seq<LogEntry>) returns (problem: Option<Error>)
      ensures problem.None? <==> forall i :: 0 <= i < |es| ==> EntryProblem(State(), es[i]).None?
    {
      for i := 0 to |es|
        invariant forall k :: 0 <= k < i ==> EntryProblem(State(), es[k]).None?
      {
        problem := ValidateLogEntry(es[i]);
        if problem.Some? {
          return;
        }
      }
      return None;
    }

    method StoreEachLogEntry(es: seq<LogEntry>) returns (stored: seq<LogEntry>)
      requires forall i :: 0 <= i < |es| ==> EntryProblem(State(), es[i]).None?
      modifies this
      ensures State() == PutEntries(old(State()), stored) && Completes(es, stored) && NewIds(es, stored)
      ensures forall i :: 0 <= i < |es| ==> EntryFits(old(State()), stored[i])
    {
      ghost var t := State();
      var reserved := set i | 0 <= i < |es| :: es[i].id;
      stored := [];
      for i := 0 to |es|
        invariant |stored| == i && Completes(es[..i], stored) && State() == PutEntries(t, stored)
        invariant NewIds(es, stored) && forall k :: 0 <= k < i ==> EntryFits(t, stored[k])
      {
        stored := StoreNextLogEntry(t, es, reserved, stored);
      }
      assert es[..|es|] == es;
    }

    method StoreNextLogEntry(ghost t: Tables, es: seq<LogEntry>, reserved: set<string>, stored: seq<LogEntry>)
      returns (more: seq<LogEntry>)
      requires |stored| < |es| && EntryProblem(t, es[|stored|]).None? && State() == PutEntries(t, stored)
      requires reserved == set i | 0 <= i < |es| :: es[i].id
      requires Completes(es[..|stored|], stored) && NewIds(es, stored)
      requires forall k :: 0 <= k < |stored| ==> EntryFits(t, stored[k])
      modifies this
      ensures State() == PutEntries(t, more) && |more| == |stored| + 1
      ensures Completes(es[..|more|], more) && NewIds(es, more)
      ensures forall k :: 0 <= k < |more| ==> EntryFits(t, more[k])
    {
      var one := StoreCheckedLogEntry(t, es[|stored|], reserved, stored);
      NewIdsSnoc(t, es, stored, one);
      CompletesSnoc(es, stored, one);
      more := stored + [one];
    }

    method StoreCheckedLogEntry(ghost t: Tables, e: LogEntry, reserved: set<string>, ghost stored: seq<LogEntry>)
      returns (one: LogEntry)
      requires State() == PutEntries(t, stored) && EntryProblem(t, e).None?
      modifies this
      ensures State() == PutEntries(t, stored + [one]) && EntryFits(t, one)
      ensures one == e.(id := one.id) && one.id != "" && (e.id != "" ==> one == e)
      ensures e.id == "" ==> one.id !in reserved && one.id !in PutEntries(t, stored).entries
    {
      one := StoreLogEntry(e, reserved);
      CompletedEntryFits(t, e, stored, one);
      PutEntriesSnoc(t, stored, one);
    }

    method DeleteLogEntriesByLogFile(file: string)
      requires Valid()
      modifies this`entries, this`entriesByLogFile
      ensures Valid() && State() == DropEntries(old(State()), {file})
    {
      var ids := InSomeOrder(if file in entriesByLogFile then entriesByLogFile[file].Values else {});
      entries := RemoveRows(entries, ids);
      ListedEntriesAreRows(logFiles.Keys, old(entries), entriesByLogFile, file, Elements(ids));
      DropEntriesKeepsConsistent(old(State()), file);
      entriesByLogFile := entriesByLogFile - {file};
    }

    // ---- Chunks ----

    method ListAllChunks(file: string) returns (items: seq<LogChunk>)
      requires Valid()
      ensures items == ChunkRows(State(), file)
    {
      var ids := if file in chunksByLogFile then chunksByLogFile[file] else [];
      items := Lookup(chunks, ids);
      assert items == UnsortedChunks(State(), file);
      // No two chunks of a file share a number, so ties need no rule.
      items := Sorting.Sort(items, NumberedBefore);
    }

    method ListLogChunks(file: string, offset: int, limit: int) returns (items: seq<LogChunk>)
      requires Valid()
      ensures items == Page(ChunkRows(State(), file), offset, limit)
    {
      items := ListAllChunks(file);
      items := Page(items, offset, limit);
    }

    /** The chunk with the greatest number. */
    method GetLatestLogChunk(file: string) returns (r: Outcome<LogChunk>)
      requires Valid()
      ensures r.Failure? <==> ChunkRows(State(), file) == []
      ensures r.Failure? ==> r.error == NotFound
      ensures r.Success? ==> r.value == ChunkRows(State(), file)[|ChunkRows(State(), file)| - 1]
      ensures r.Success? ==> IsLatestChunk(State(), file, r.value)
    {
      var items := ListAllChunks(file);
      if |items| == 0 {
        return Failure(NotFound);
      }
      LastChunkIsLatest(State(), file);
      return Success(items[|items| - 1]);
    }

    method DeleteLogChunksByLogFile(file: string)
      requires Valid()
      modifies this`chunks, this`chunksByLogFile
      ensures Valid() && State() == DropChunks(old(State()), {file})
    {
      var ids := if file in chunksByLogFile then chunksByLogFile[file] else [];
      chunks := RemoveRows(chunks, ids);
      ListedRowsAreRows(old(chunks), ChunkFile, chunksByLogFile, file);
      DropChunksKeepsConsistent(old(State()), file);
      chunksByLogFile := chunksByLogFile - {file};
    }

    method CreateLogChunk(c: LogChunk, reserved: set<string>) returns (r: Outcome<LogChunk>)
      requires Valid()
      modifies this
      ensures Valid() && servers == old(servers)
      ensures r.Failure? <==> ChunkProblem(old(State()), c).Some?
      ensures r.Failure? ==> State() == old(State()) && Some(r.error) == ChunkProblem(old(State()), c)
      ensures r.Success? ==> State() == PutChunk(old(State()), r.value) && ChunkFits(old(State()), r.value)
      ensures r.Success? ==> r.value == c.(id := r.value.id) && r.value.id != "" && (c.id != "" ==> r.value == c)
      ensures r.Success? && c.id == "" ==> r.value.id !in reserved && r.value.id !in old(chunks)
      ensures r.Success? ==> chunks == old(chunks)[r.value.id := r.value] && entries == old(entries)
    {
      var problem := ValidateLogChunk(c);
      if problem.Some? {
        return Failure(problem.value);
      }
      var stored := StoreLogChunk(c, reserved);
      PutChunkKeepsConsistent(old(State()), stored);
      return Success(stored);
    }

    /** Chunks are checked together first and once more one by one while storing. A repetition inside the list is found
        only by the second check, after the rows before it were stored. */
    method CreateLogChunks(cs: seq<LogChunk>) returns (r: Outcome<()>, stored: seq<LogChunk>)
      requires Valid()
      modifies this
      ensures Valid() && State() == PutChunks(old(State()), stored)
      ensures AppliedPrefix(old(State()), cs, stored)
      ensures r.Success? <==> |stored| == |cs| && AllAcceptableAlone(old(State()), cs)
      ensures r.Success? <==> forall i :: 0 <= i < |cs| ==> !ChunkRejected(old(State()), Given(cs), i)
    {
      ghost var t := State();
      stored := [];
      var problem := ValidateEachLogChunk(cs);
      if problem.Some? {
        AppliedPrefixIs(t, cs, stored);
        return Failure(problem.value), stored;
      }
      for i := 0 to |cs|
        invariant Valid() && |stored| == i
        invariant State() == PutChunks(t, stored)
        invariant StoredSoFar(t, cs, stored)
      {
        var one := CreateNextLogChunk(t, cs, stored);
        if one.Failure? {
          return Failure(one.error), stored;
        }
        stored := stored + [one.value];
      }
      AppliedPrefixIs(t, cs, stored);
      return Success(()), stored;
    }

    method ValidateEachLogChunk(cs: seq<LogChunk>) returns (problem: Option<Error>)
      requires ChunksIndexed(logFiles.Keys, chunks, chunksByLogFile)
      ensures problem.None? <==> AllAcceptableAlone(State(), cs)
    {
      for i := 0 to |cs|
        invariant forall k :: 0 <= k < i ==> ChunkProblem(State(), cs[k]).None?
      {
        problem := ValidateLogChunk(cs[i]);
        if problem.Some? {
          return;
        }
      }
      return None;
    }

    method CreateNextLogChunk(ghost t: Tables, cs: seq<LogChunk>, stored: seq<LogChunk>) returns (r: Outcome<LogChunk>)
      requires Valid() && State() == PutChunks(t, stored)
      requires |stored| < |cs| && AllAcceptableAlone(t, cs) && StoredSoFar(t, cs, stored)
      modifies this
      ensures Valid()
      ensures r.Failure? ==> State() == old(State()) && ChunkRejected(t, Given(cs), |stored|)
      ensures r.Success? ==> State() == PutChunks(t, stored + [r.value]) && StoredSoFar(t, cs, stored + [r.value])
    {
      TableKnowsRepetitions(t, cs, stored);
      r := CreateLogChunk(cs[|stored|], ExplicitChunkIds(Given(cs)));
      if r.Success? {
        StoreNextGiven(t, cs, stored, r.value);
      }
    }

    // ---- Check results ----

    method CreateCheckResult(c: CheckResult) returns (r: Outcome<CheckResult>)
      requires Valid()
      modifies this`checks, this`checksByLogFile
      ensures Valid()
      ensures r.Failure? ==> State() == old(State())
      ensures r.Failure? <==> c.logFileId !in logFiles || (c.id != "" && c.id in old(checks))
      ensures r.Success? ==> State() == PutCheck(old(State()), r.value) && r.value.id !in old(checks)
      ensures r.Success? ==> r.value == c.(id := r.value.id) && (c.id != "" ==> r.value == c)
      ensures r.Success? ==> checks == old(checks)[r.value.id := r.value]
    {
      if c.logFileId !in logFiles {
        return Failure(NotFound);
      }
      var stored := c;
      if c.id == "" {
        var id := NewId(checks.Keys);
        stored := c.(id := id);
      }
      if stored.id in checks {
        return Failure(Conflict);
      }
      StoreCheckResult(stored);
      return Success(stored);
    }

    method StoreCheckResult(c: CheckResult)
      requires Valid() && c.logFileId in logFiles && c.id !in checks
      modifies this`checks, this`checksByLogFile
      ensures Valid() && State() == PutCheck(old(State()), c) && checks == old(checks)[c.id := c]
    {
      ghost var t := State();
      checks := checks[c.id := c];
      checksByLogFile := AddToList(checksByLogFile, c.logFileId, c.id);
      assert State() == PutCheck(t, c);
      assert Consistent(PutCheck(t, c)) by {
        PutCheckKeepsConsistent(t, c);
      }
    }

    // ---- Log files ----

    method CreateLogFile(f: LogFile) returns (r: Outcome<LogFile>)
      requires Valid()
      modifies this`logFiles, this`logFilesByServer
      ensures Valid()
      ensures r.Failure? ==> State() == old(State())
      ensures r.Failure? <==> f.serverId !in servers || (f.id != "" && f.id in old(logFiles)) ||
                              PathTaken(old(State()), f.serverId, f.path)
      ensures r.Success? ==> State() == PutFile(old(State()), r.value) && r.value.id !in old(logFiles)
      ensures r.Success? ==> r.value == f.(id := r.value.id) && (f.id != "" ==> r.value == f)
      ensures r.Success? ==> logFiles == old(logFiles)[r.value.id := r.value]
    {
      if f.serverId !in servers {
        return Failure(NotFound);
      }
      var created := f;
      if f.id == "" {
        var id := NewId(logFiles.Keys);
        created := f.(id := id);
      }
      if created.id in logFiles {
        return Failure(Conflict);
      }
      if f.serverId in logFilesByServer && f.path in logFilesByServer[f.serverId] {
        return Failure(Conflict);
      }
      logFiles := logFiles[created.id := created];
      logFilesByServer := AddPath(logFilesByServer, created);
      assert State() == PutFile(old(State()), created);
      PutFileKeepsConsistent(old(State()), created);
      return Success(created);
    }

    method GetLogFileByID(id: string) returns (r: Outcome<LogFile>)
      ensures r == if id in logFiles then Success(logFiles[id]) else Failure(NotFound)
    {
      if id !in logFiles {
        return Failure(NotFound);
      }
      return Success(logFiles[id]);
    }

    /** The log files of one server, ascending by path, which is unique within a server. */
    method ListLogFilesByServer(serverId: string) returns (items: seq<LogFile>)
      requires Valid()
      ensures NoDuplicates(items) && ByPath(items) && forall f :: f in items <==> IsFileOf(State(), serverId, f)
    {
      var ids := InSomeOrder(logFiles.Keys);
      items := SelectFiles(logFiles, ids, serverId);
      forall f ensures f in items <==> IsFileOf(State(), serverId, f) {
        assert f.id in logFiles <==> f.id in Elements(ids);
      }
      SortedFilesAscend(State(), serverId, items);
      items := Sorting.Sort(items, PathBefore);
    }

    method UpdateLogFile(f: LogFile) returns (r: Outcome<()>)
      requires Valid()
      modifies this`logFiles, this`logFilesByServer
      ensures Valid()
      ensures r.Failure? ==> State() == old(State())
      ensures r.Success? <==> Replaceable(old(State()), f)
      ensures r.Success? ==> State() == ReplaceFile(old(State()), f) && logFiles == old(logFiles)[f.id := f]
    {
      assert f.id in logFiles ==> FileListed(logFiles, logFilesByServer, f.id);
      if f.id !in logFiles {
        return Failure(NotFound);
      }
      var current := logFiles[f.id];
      if current.serverId != f.serverId {
        return Failure(Conflict);
      }
      if current.path != f.path {
        var byPath := logFilesByServer[f.serverId];
        if f.path in byPath && byPath[f.path] != f.id {
          return Failure(Conflict);
        }
        logFilesByServer := logFilesByServer[f.serverId := (byPath - {current.path})[f.path := f.id]];
      }
      logFiles := logFiles[f.id := f];
      assert State() == ReplaceFile(old(State()), f) by {
        MovePathUnchanged(old(logFilesByServer), current, f);
      }
      ReplaceFileKeepsConsistent(old(State()), f);
      return Success(());
    }

    /** The cascade: entries, chunks, check results, index entry, row. */
    method DeleteLogFileLocked(id: string)
      requires Valid()
      modifies this
      ensures Valid() && servers == old(servers)
      ensures State() == if id in old(logFiles) then EraseFile(old(State()), id) else old(State())
    {
      if id !in logFiles {
        return;
      }
      var f := logFiles[id];
      ghost var t := State();
      assert FileListed(logFiles, logFilesByServer, id);
      DeleteLogEntriesByLogFile(id);
      DeleteLogChunksByLogFile(id);
      DeleteChecks(id);
      EraseFileKeepsConsistent(t, id);
      logFilesByServer := WithoutPath(logFilesByServer, f);
      logFiles := logFiles - {id};
    }

    method DeleteChecks(file: string)
      requires Valid()
      modifies this`checks, this`checksByLogFile
      ensures State() == DropChecks(old(State()), {file})
    {
      var ids := if file in checksByLogFile then checksByLogFile[file] else [];
      checks := RemoveRows(checks, ids);
      ListedRowsAreRows(old(checks), CheckFile, checksByLogFile, file);
      checksByLogFile := checksByLogFile - {file};
    }

    method DeleteLogFile(id: string) returns (r: Outcome<()>)
      requires Valid()
      modifies this
      ensures Valid()
      ensures r == if id in old(logFiles) then Success(()) else Failure(NotFound)
      ensures State() == if id in old(logFiles) then EraseFile(old(State()), id) else old(State())
    {
      if id !in logFiles {
        return Failure(NotFound);
      }
      DeleteLogFileLocked(id);
      return Success(());
    }

    // ---- Servers ----

    method FindServerByNameOrHost(s: Server, exclude: string) returns (found: bool)
      ensures found == NameOrHostTaken(servers, fold, s, exclude)
    {
      var ids := InSomeOrder(servers.Keys);
      for i := 0 to |ids|
        invariant forall k :: 0 <= k < i ==> !Clashes(servers[ids[k]], fold, s, exclude)
      {
        assert ids[i] in Elements(ids);
        var item := servers[ids[i]];
        if item.id == exclude {
          continue;
        }
        if fold(item.name) == fold(s.name) || fold(item.host) == fold(s.host) {
          return true;
        }
      }
      forall id | id in servers ensures !Clashes(servers[id], fold, s, exclude) {
        assert id in Elements(ids);
      }
      return false;
    }

    method CreateServer(s: Server) returns (r: Outcome<Server>)
      requires Valid()
      modifies this`servers
      ensures Valid()
      ensures r.Failure? ==> State() == old(State()) && r.error == Conflict
      ensures r.Failure? <==> s.id in old(servers) || NameOrHostTaken(old(servers), fold, s, "")
      ensures r.Success? ==> State() == PutServer(old(State()), r.value) && r.value.id !in old(servers)
      ensures r.Success? ==> OnlyServerStored(old(State()), State(), r.value)
      ensures r.Success? ==> r.value == WithDefaults(s).(id := r.value.id) && (s.id != "" ==> r.value.id == s.id)
      ensures r.Success? ==>
                r.value.name == s.name && r.value.host == s.host && r.value.lastError == s.lastError &&
                r.value.status == (if s.status == UnsetStatus then ServerInactive else s.status) &&
                r.value.managedBy == (if s.managedBy == "" then "api" else s.managedBy)
    {
      var created := s;
      if s.id == "" {
        var id := NewId(servers.Keys);
        created := s.(id := id);
      }
      if created.id in servers {
        return Failure(Conflict);
      }
      var taken := FindServerByNameOrHost(created, "");
      if taken {
        return Failure(Conflict);
      }
      if created.status == UnsetStatus {
        created := created.(status := ServerInactive);
      }
      if created.managedBy == "" {
        created := created.(managedBy := MANAGED_BY_API);
      }
      PutServerKeepsDistinct(servers, fold, created, "");
      PutServerKeepsConsistent(State(), created);
      servers := servers[created.id := created];
      return Success(created);
    }

    method GetServerByID(id: string) returns (r: Outcome<Server>)
      ensures r == if id in servers then Success(servers[id]) else Failure(NotFound)
    {
      if id !in servers {
        return Failure(NotFound);
      }
      return Success(servers[id]);
    }

    method UpdateServer(s: Server) returns (r: Outcome<()>)
      requires Valid()
      modifies this`servers
      ensures Valid()
      ensures r == if s.id !in old(servers) then Failure(NotFound)
                   else if NameOrHostTaken(old(servers), fold, s, s.id) then Failure(Conflict)
                   else Success(())
      ensures State() == if r.Success? then PutServer(old(State()), Managed(s)) else old(State())
      ensures r.Success? ==>
                OnlyServerStored(old(State()), State(),
                                 s.(managedBy := if s.managedBy == "" then "api" else s.managedBy))
    {
      if s.id !in servers {
        return Failure(NotFound);
      }
      var taken := FindServerByNameOrHost(s, s.id);
      if taken {
        return Failure(Conflict);
      }
      var stored := s;
      if stored.managedBy == "" {
        stored := stored.(managedBy := MANAGED_BY_API);
      }
      PutServerKeepsDistinct(servers, fold, stored, stored.id);
      PutServerKeepsConsistent(State(), stored);
      servers := servers[stored.id := stored];
      return Success(());
    }

    /** The server and everything that leads back to it. */
    method DeleteServer(id: string) returns (r: Outcome<()>)
      requires Valid()
      modifies this
      ensures Valid()
      ensures r == if id in old(servers) then Success(()) else Failure(NotFound)
      ensures State() == if id in old(servers) then EraseServer(old(State()), id) else old(State())
    {
      if id !in servers {
        return Failure(NotFound);
      }
      ghost var t := State();
      var ids := InSomeOrder(if id in logFilesByServer then logFilesByServer[id].Values else {});
      ServerFilesAreListed(t, id, ids);
      DeleteLogFilesOf(id, ids);
      EraseServerKeepsConsistent(t, id);
      DistinctWithoutOne(t.servers, fold, id);
      servers := servers - {id};
      logFilesByServer := logFilesByServer - {id};
      assert State() == EraseServer(t, id);
      return Success(());
    }

    method DeleteLogFilesOf(id: string, ids: seq<string>)
      requires Valid() && NoDuplicates(ids) && Elements(ids) == FilesOf(State(), id)
      modifies this
      ensures Valid() && servers == old(servers)
      ensures PartlyErased(old(State()), id, Elements(ids), State())
    {
      ghost var t := State();
      ghost var gone: set<string> := {};
      NothingErasedYet(t, id);
      ElementsWhole(ids);
      for i := 0 to |ids|
        invariant Valid() && servers == t.servers
        invariant gone == Elements(ids[..i])
        invariant PartlyErased(t, id, gone, State())
      {
        StillListed(t, id, ids, i, State());
        DeleteNextLogFile(t, id, gone, ids[i]);
        gone := gone + {ids[i]};
        ElementsNext(ids, i);
      }
    }

    method DeleteNextLogFile(ghost t: Tables, server: string, ghost gone: set<string>, id: string)
      requires Valid() && servers == t.servers && PartlyErased(t, server, gone, State())
      requires id in logFiles && logFiles[id].serverId == server
      modifies this
      ensures Valid() && servers == t.servers && PartlyErased(t, server, gone + {id}, State())
    {
      EraseNextFile(t, server, gone, State(), id);
      DeleteLogFileLocked(id);
    }

    method RecordServerSuccess(id: string, seenAt: int) returns (r: Outcome<()>)
      requires Valid()
      modifies this`servers
      ensures Valid()
      ensures r == if id in old(servers) then Success(()) else Failure(NotFound)
      ensures State() == if r.Success? then PutServer(old(State()), Succeeded(old(servers)[id], seenAt))
              else old(State())
      ensures r.Success? ==>
                id in servers && OnlyServerStored(old(State()), State(), servers[id]) &&
                ShowsSuccess(old(servers)[id], servers[id], seenAt)
    {
      if id !in servers {
        return Failure(NotFound);
      }
      var s := servers[id];
      s := s.(status := ServerActive, successCount := s.successCount + 1, failureCount := 0, lastError := "",
              lastSeenAt := Some(seenAt), backoffUntil := None);
      OverwriteServer(s);
      return Success(());
    }

    method RecordServerFailure(id: string, lastError: string, backoffUntil: Option<int>) returns (r: Outcome<()>)
      requires Valid()
      modifies this`servers
      ensures Valid()
      ensures r == if id in old(servers) then Success(()) else Failure(NotFound)
      ensures State() == if r.Success? then PutServer(old(State()), Failed(old(servers)[id], lastError, backoffUntil))
                         else old(State())
      ensures r.Success? ==>
                id in servers && OnlyServerStored(old(State()), State(), servers[id]) &&
                ShowsFailure(old(servers)[id], servers[id], lastError, backoffUntil)
    {
      if id !in servers {
        return Failure(NotFound);
      }
      var s := servers[id];
      s := s.(status := ServerError, failureCount := s.failureCount + 1, lastError := lastError,
              backoffUntil := backoffUntil);
      OverwriteServer(s);
      return Success(());
    }

    /** Storing a row changed in place: name and host are as before. */
    method OverwriteServer(s: Server)
      requires Valid() && s.id in servers && s.name == servers[s.id].name && s.host == servers[s.id].host
      requires s.managedBy == servers[s.id].managedBy
      modifies this`servers
      ensures Valid() && State() == PutServer(old(State()), s) && servers == old(servers)[s.id := s]
    {
      RowUpdateKeepsValid(State(), fold, s);
      servers := servers[s.id := s];
    }
  }

  /** What was created is what the next lookup returns, with its defaults. */
  method CreateThenGet(store: Store, s: Server) returns (created: Outcome<Server>, got: Outcome<Server>)
    requires store.Valid()
    modifies store`servers
    ensures store.Valid()
    ensures created.Success? ==>
              got == created && got.value.name == s.name && got.value.host == s.host &&
              got.value.status == (if s.status == UnsetStatus then ServerInactive else s.status) &&
              got.value.managedBy == (if s.managedBy == "" then "api" else s.managedBy)
    ensures created.Failure? ==> store.servers == old(store.servers)
  {
    created := store.CreateServer(s);
    got := created;
    if created.Success? {
      got := store.GetServerByID(created.value.id);
    }
  }
}

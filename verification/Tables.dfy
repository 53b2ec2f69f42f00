/** The repository as tables and indexes, the invariant that ties them together, and what each write does to them. */
module Tables {
  import opened Prelude
  import opened Models

  type FileIndex = map<string, map<string, string>>
  type LineIndex = map<string, map<int, string>>
  type ListIndex = map<string, seq<string>>

  /** Five primary tables keyed by row id; four secondary indexes: log files by server and path, entries by log file
      and line number, chunks and check results by log file in insertion order. */
  datatype Tables = Tables(
    servers: map<string, Server>,
    logFiles: map<string, LogFile>,
    logFilesByServer: FileIndex,
    entries: map<string, LogEntry>,
    entriesByLogFile: LineIndex,
    chunks: map<string, LogChunk>,
    chunksByLogFile: ListIndex,
    checks: map<string, CheckResult>,
    checksByLogFile: ListIndex)

  const NO_TABLES := Tables(map[], map[], map[], map[], map[], map[], map[], map[], map[])

  // ---- Invariant ----

  /** Rows sit under their own id, and each names who manages it. */
  ghost predicate ServersKeyed(servers: map<string, Server>) {
    forall id :: id in servers ==> id != "" && servers[id].id == id && servers[id].managedBy != ""
  }

  /** Names and hosts are unique up to case folding. */
  ghost predicate ServersDistinct(servers: map<string, Server>, fold: string -> string) {
    forall a, b :: a in servers && b in servers && a != b ==>
      fold(servers[a].name) != fold(servers[b].name) && fold(servers[a].host) != fold(servers[b].host)
  }

  ghost predicate FileListed(files: map<string, LogFile>, index: FileIndex, id: string)
    requires id in files
  {
    var f := files[id];
    f.id == id && f.serverId in index && f.path in index[f.serverId] && index[f.serverId][f.path] == id
  }

  ghost predicate PathResolves(files: map<string, LogFile>, index: FileIndex, server: string, path: string)
    requires server in index && path in index[server]
  {
    var id := index[server][path];
    id in files && files[id].serverId == server && files[id].path == path
  }

  ghost predicate FilesIndexed(servers: set<string>, files: map<string, LogFile>, index: FileIndex) {
    (forall id :: id in files ==> files[id].serverId in servers && FileListed(files, index, id)) &&
    (forall server :: server in index ==> index[server] != map[]) &&
    (forall server, path :: server in index && path in index[server] ==> PathResolves(files, index, server, path))
  }

  ghost predicate EntryListed(entries: map<string, LogEntry>, index: LineIndex, id: string)
    requires id in entries
  {
    var e := entries[id];
    e.id == id && e.logFileId in index && e.lineNumber in index[e.logFileId] && index[e.logFileId][e.lineNumber] == id
  }

  ghost predicate LineResolves(entries: map<string, LogEntry>, index: LineIndex, file: string, line: int)
    requires file in index && line in index[file]
  {
    var id := index[file][line];
    id in entries && entries[id].logFileId == file && entries[id].lineNumber == line
  }

  ghost predicate EntriesIndexed(files: set<string>, entries: map<string, LogEntry>, index: LineIndex) {
    (forall id :: id in entries ==> entries[id].logFileId in files && EntryListed(entries, index, id)) &&
    (forall file :: file in index ==> index[file] != map[]) &&
    (forall file, line :: file in index && line in index[file] ==> LineResolves(entries, index, file, line))
  }

  ghost predicate ListsExactly<R(!new)>(rows: map<string, R>, fileOf: R -> string, index: ListIndex) {
    (forall id :: id in rows ==> fileOf(rows[id]) in index && id in index[fileOf(rows[id])]) &&
    (forall file :: file in index ==>
       index[file] != [] && NoDuplicates(index[file]) &&
       forall i :: 0 <= i < |index[file]| ==> index[file][i] in rows && fileOf(rows[index[file][i]]) == file)
  }

  const ChunkFile: LogChunk -> string := (c: LogChunk) => c.logFileId
  const CheckFile: CheckResult -> string := (c: CheckResult) => c.logFileId

  predicate SameNumber(a: LogChunk, b: LogChunk) {
    a.logFileId == b.logFileId && a.chunkNumber == b.chunkNumber
  }

  ghost predicate ChunksIndexed(files: set<string>, chunks: map<string, LogChunk>, index: ListIndex) {
    (forall id :: id in chunks ==> chunks[id].id == id && chunks[id].logFileId in files) &&
    ListsExactly(chunks, ChunkFile, index) &&
    (forall a, b :: a in chunks && b in chunks && SameNumber(chunks[a], chunks[b]) ==> a == b)
  }

  ghost predicate ChecksIndexed(files: set<string>, checks: map<string, CheckResult>, index: ListIndex) {
    (forall id :: id in checks ==> checks[id].id == id && checks[id].logFileId in files) &&
    ListsExactly(checks, CheckFile, index)
  }

  /** Every index agrees exactly with its table, every reference resolves, and (server, path), (log file, line) and
      (log file, chunk number) identify at most one row. */
  ghost predicate Consistent(t: Tables) {
    ServersKeyed(t.servers) &&
    FilesIndexed(t.servers.Keys, t.logFiles, t.logFilesByServer) &&
    EntriesIndexed(t.logFiles.Keys, t.entries, t.entriesByLogFile) &&
    ChunksIndexed(t.logFiles.Keys, t.chunks, t.chunksByLogFile) &&
    ChecksIndexed(t.logFiles.Keys, t.checks, t.checksByLogFile)
  }

  // ---- Writing one row ----

  function AddLine(index: LineIndex, e: LogEntry): LineIndex {
    index[e.logFileId := (if e.logFileId in index then index[e.logFileId] else map[])[e.lineNumber := e.id]]
  }

  function AddToList(index: ListIndex, file: string, id: string): ListIndex {
    index[file := (if file in index then index[file] else []) + [id]]
  }

  function PutEntry(t: Tables, e: LogEntry): Tables {
    t.(entries := t.entries[e.id := e], entriesByLogFile := AddLine(t.entriesByLogFile, e))
  }

  function PutChunk(t: Tables, c: LogChunk): Tables {
    t.(chunks := t.chunks[c.id := c], chunksByLogFile := AddToList(t.chunksByLogFile, c.logFileId, c.id))
  }

  function PutEntries(t: Tables, es: seq<LogEntry>): Tables {
    if es == [] then t else PutEntry(PutEntries(t, es[..|es| - 1]), es[|es| - 1])
  }

  lemma {:induction false} PutEntriesSnoc(t: Tables, es: seq<LogEntry>, e: LogEntry)
    ensures PutEntries(t, es + [e]) == PutEntry(PutEntries(t, es), e)
  {
    assert (es + [e])[..|es|] == es;
  }

  function PutChunks(t: Tables, cs: seq<LogChunk>): Tables {
    if cs == [] then t else PutChunk(PutChunks(t, cs[..|cs| - 1]), cs[|cs| - 1])
  }

  predicate LineTaken(t: Tables, file: string, line: int) {
    file in t.entriesByLogFile && line in t.entriesByLogFile[file]
  }

  predicate NumberTaken(t: Tables, file: string, number: int) {
    exists id :: id in t.chunks && t.chunks[id].logFileId == file && t.chunks[id].chunkNumber == number
  }

  lemma {:induction false} AddToListKeepsExact<R(!new)>(rows: map<string, R>, fileOf: R -> string, index: ListIndex,
                                                 id: string, row: R)
    requires ListsExactly(rows, fileOf, index) && id !in rows
    ensures ListsExactly(rows[id := row], fileOf, AddToList(index, fileOf(row), id))
  {
    var index' := AddToList(index, fileOf(row), id);
    var rows' := rows[id := row];
    forall x | x in rows' ensures fileOf(rows'[x]) in index' && x in index'[fileOf(rows'[x])] {
      if x == id {
        assert index'[fileOf(row)][|index'[fileOf(row)]| - 1] == id;
      } else if fileOf(rows[x]) == fileOf(row) {
        assert index'[fileOf(row)] == index[fileOf(row)] + [id];
      }
    }
  }

  lemma {:induction false} AddChunkKeepsIndexed(files: set<string>, chunks: map<string, LogChunk>, index: ListIndex,
                                                c: LogChunk)
    requires ChunksIndexed(files, chunks, index) && c.logFileId in files && c.id !in chunks
    requires forall id :: id in chunks && chunks[id].logFileId == c.logFileId ==>
             chunks[id].chunkNumber != c.chunkNumber
    ensures ChunksIndexed(files, chunks[c.id := c], AddToList(index, c.logFileId, c.id))
  {
    AddToListKeepsExact(chunks, ChunkFile, index, c.id, c);
  }

  lemma {:induction false} PutChunkKeepsConsistent(t: Tables, c: LogChunk)
    requires Consistent(t) && c.logFileId in t.logFiles && c.id !in t.chunks
    requires !NumberTaken(t, c.logFileId, c.chunkNumber)
    ensures Consistent(PutChunk(t, c))
  {
    AddChunkKeepsIndexed(t.logFiles.Keys, t.chunks, t.chunksByLogFile, c);
  }

  // ---- Writing several rows ----

  predicate SameLine(a: LogEntry, b: LogEntry) {
    a.logFileId == b.logFileId && a.lineNumber == b.lineNumber
  }

  ghost predicate EntryFits(t: Tables, e: LogEntry) {
    e.logFileId in t.logFiles && e.id !in t.entries && !LineTaken(t, e.logFileId, e.lineNumber)
  }

  ghost predicate ChunkFits(t: Tables, c: LogChunk) {
    c.logFileId in t.logFiles && c.id !in t.chunks && !NumberTaken(t, c.logFileId, c.chunkNumber)
  }

  ghost predicate EntriesFit(t: Tables, es: seq<LogEntry>) {
    (forall i :: 0 <= i < |es| ==> EntryFits(t, es[i])) &&
    (forall i, j :: 0 <= i < j < |es| ==> es[i].id != es[j].id && !SameLine(es[i], es[j]))
  }

  ghost predicate ChunksFit(t: Tables, cs: seq<LogChunk>) {
    (forall i :: 0 <= i < |cs| ==> ChunkFits(t, cs[i])) &&
    (forall i, j :: 0 <= i < j < |cs| ==> cs[i].id != cs[j].id && !SameNumber(cs[i], cs[j]))
  }

  ghost predicate OnlyEntriesDiffer(t: Tables, t': Tables) {
    t' == t.(entries := t'.entries, entriesByLogFile := t'.entriesByLogFile)
  }

  ghost predicate OnlyChunksDiffer(t: Tables, t': Tables) {
    t' == t.(chunks := t'.chunks, chunksByLogFile := t'.chunksByLogFile)
  }

  // ---- What a list of writes leaves in tables and indexes ----

  function LastWithId(es: seq<LogEntry>, id: string): (i: int)
    ensures -1 <= i < |es| && (i >= 0 ==> es[i].id == id)
    ensures forall k :: i < k < |es| ==> es[k].id != id
  {
    if es == [] then -1
    else if es[|es| - 1].id == id then |es| - 1
    else LastWithId(es[..|es| - 1], id)
  }

  function LastOnLine(es: seq<LogEntry>, file: string, line: int): (i: int)
    ensures -1 <= i < |es| && (i >= 0 ==> es[i].logFileId == file && es[i].lineNumber == line)
    ensures forall k :: i < k < |es| ==> !(es[k].logFileId == file && es[k].lineNumber == line)
  {
    if es == [] then -1
    else if es[|es| - 1].logFileId == file && es[|es| - 1].lineNumber == line then |es| - 1
    else LastOnLine(es[..|es| - 1], file, line)
  }

  lemma {:induction false} EntryAfter(t: Tables, es: seq<LogEntry>, id: string)
    ensures var i, t' := LastWithId(es, id), PutEntries(t, es);
            (id in t'.entries <==> i >= 0 || id in t.entries) &&
            (i >= 0 ==> t'.entries[id] == es[i]) && (i < 0 && id in t.entries ==> t'.entries[id] == t.entries[id])
  {
    if es != [] {
      EntryAfter(t, es[..|es| - 1], id);
    }
  }

  lemma {:induction false} LineAfter(t: Tables, es: seq<LogEntry>, file: string, line: int)
    ensures var i, t' := LastOnLine(es, file, line), PutEntries(t, es);
            (LineTaken(t', file, line) <==> i >= 0 || LineTaken(t, file, line)) &&
            (i >= 0 ==> t'.entriesByLogFile[file][line] == es[i].id) &&
            (i < 0 && LineTaken(t, file, line) ==> t'.entriesByLogFile[file][line] == t.entriesByLogFile[file][line])
  {
    if es != [] {
      LineAfter(t, es[..|es| - 1], file, line);
    }
  }

  lemma {:induction false} OtherTablesAfter(t: Tables, es: seq<LogEntry>)
    requires forall file :: file in t.entriesByLogFile ==> t.entriesByLogFile[file] != map[]
    ensures OnlyEntriesDiffer(t, PutEntries(t, es))
    ensures forall file :: file in PutEntries(t, es).entriesByLogFile ==>
            PutEntries(t, es).entriesByLogFile[file] != map[]
  {
    if es != [] {
      var e := es[|es| - 1];
      OtherTablesAfter(t, es[..|es| - 1]);
      assert e.lineNumber in PutEntries(t, es).entriesByLogFile[e.logFileId];
    }
  }

  /** An entry is the last one written under its id exactly when it is the last one written for its line. */
  ghost predicate LastWritesAgree(es: seq<LogEntry>) {
    forall i :: 0 <= i < |es| ==>
      (LastWithId(es, es[i].id) == i <==> LastOnLine(es, es[i].logFileId, es[i].lineNumber) == i)
  }

  lemma {:induction false} FittingIdsAndLines(t: Tables, es: seq<LogEntry>)
    requires forall i :: 0 <= i < |es| ==> EntryFits(t, es[i])
    ensures forall i :: 0 <= i < |es| ==>
              es[i].id !in t.entries && es[i].logFileId in t.logFiles &&
                !LineTaken(t, es[i].logFileId, es[i].lineNumber)
  {
    forall i | 0 <= i < |es|
      ensures es[i].id !in t.entries && es[i].logFileId in t.logFiles &&
              !LineTaken(t, es[i].logFileId, es[i].lineNumber)
    {
      assert EntryFits(t, es[i]);
    }
  }

  lemma {:induction false} AgreeingWritesKeepEntriesIndexed(t: Tables, es: seq<LogEntry>)
    requires EntriesIndexed(t.logFiles.Keys, t.entries, t.entriesByLogFile)
    requires (forall i :: 0 <= i < |es| ==> EntryFits(t, es[i])) && LastWritesAgree(es)
    ensures EntriesIndexed(t.logFiles.Keys, PutEntries(t, es).entries, PutEntries(t, es).entriesByLogFile)
  {
    var t' := PutEntries(t, es);
    OtherTablesAfter(t, es);
    FittingIdsAndLines(t, es);
    forall id | id in t'.entries
      ensures t'.entries[id].logFileId in t.logFiles && EntryListed(t'.entries, t'.entriesByLogFile, id)
    {
      EntryAfter(t, es, id);
      var e := t'.entries[id];
      LineAfter(t, es, e.logFileId, e.lineNumber);
      var i := LastWithId(es, id);
      assert i >= 0 || EntryListed(t.entries, t.entriesByLogFile, id);
    }
    forall file, line | file in t'.entriesByLogFile && line in t'.entriesByLogFile[file]
      ensures LineResolves(t'.entries, t'.entriesByLogFile, file, line)
    {
      LineAfter(t, es, file, line);
      var i := LastOnLine(es, file, line);
      var id := t'.entriesByLogFile[file][line];
      EntryAfter(t, es, id);
      if i < 0 {
        assert LineTaken(t, file, line) && LineResolves(t.entries, t.entriesByLogFile, file, line);
      }
    }
  }

  lemma {:induction false} IndexedEntriesWereWrittenInAgreement(t: Tables, es: seq<LogEntry>)
    requires EntriesIndexed(t.logFiles.Keys, PutEntries(t, es).entries, PutEntries(t, es).entriesByLogFile)
    ensures LastWritesAgree(es)
  {
    var t' := PutEntries(t, es);
    forall i | 0 <= i < |es|
      ensures LastWithId(es, es[i].id) == i <==> LastOnLine(es, es[i].logFileId, es[i].lineNumber) == i
    {
      EntryAfter(t, es, es[i].id);
      LineAfter(t, es, es[i].logFileId, es[i].lineNumber);
      assert EntryListed(t'.entries, t'.entriesByLogFile, es[i].id);
      assert LineResolves(t'.entries, t'.entriesByLogFile, es[i].logFileId, es[i].lineNumber);
    }
  }

  /** Exactly when a batch of individually acceptable entries keeps the repository consistent. Distinct ids and lines
      are enough; an entry repeated under the same id and line is harmless too; anything else breaks the index. */
  lemma {:induction false} BatchKeepsConsistentIff(t: Tables, es: seq<LogEntry>)
    requires Consistent(t) && forall i :: 0 <= i < |es| ==> EntryFits(t, es[i])
    ensures Consistent(PutEntries(t, es)) <==> LastWritesAgree(es)
  {
    OtherTablesAfter(t, es);
    if LastWritesAgree(es) {
      AgreeingWritesKeepEntriesIndexed(t, es);
    }
    if Consistent(PutEntries(t, es)) {
      IndexedEntriesWereWrittenInAgreement(t, es);
    }
  }

  lemma {:induction false} DistinctWritesAgree(es: seq<LogEntry>)
    requires forall i, j :: 0 <= i < j < |es| ==> es[i].id != es[j].id && !SameLine(es[i], es[j])
    ensures LastWritesAgree(es)
  {
    forall i | 0 <= i < |es|
      ensures LastWithId(es, es[i].id) == i && LastOnLine(es, es[i].logFileId, es[i].lineNumber) == i
    {
      var k, m := LastWithId(es, es[i].id), LastOnLine(es, es[i].logFileId, es[i].lineNumber);
      assert i <= k && i <= m && SameLine(es[i], es[m]);
    }
  }

  /** Fitting rows keep the tables consistent. */
  lemma {:induction false} PutEntriesKeepsConsistent(t: Tables, es: seq<LogEntry>)
    requires Consistent(t) && EntriesFit(t, es)
    ensures Consistent(PutEntries(t, es)) && OnlyEntriesDiffer(t, PutEntries(t, es))
  {
    DistinctWritesAgree(es);
    BatchKeepsConsistentIff(t, es);
    OtherTablesAfter(t, es);
  }

  /** Fitting rows are all added, and no other row is touched. */
  lemma {:induction false} PutEntriesAdds(t: Tables, es: seq<LogEntry>)
    requires EntriesFit(t, es)
    ensures forall id :: id in PutEntries(t, es).entries <==>
              id in t.entries || exists i :: 0 <= i < |es| && es[i].id == id
    ensures forall id :: id in t.entries ==> PutEntries(t, es).entries[id] == t.entries[id]
    ensures forall i :: 0 <= i < |es| ==> PutEntries(t, es).entries[es[i].id] == es[i]
  {
    var t' := PutEntries(t, es);
    FittingIdsAndLines(t, es);
    forall id
      ensures id in t'.entries <==> id in t.entries || exists i :: 0 <= i < |es| && es[i].id == id
      ensures id in t.entries ==> t'.entries[id] == t.entries[id]
    {
      EntryAfter(t, es, id);
    }
    DistinctIdsAreLast(es);
    forall i | 0 <= i < |es| ensures t'.entries[es[i].id] == es[i] {
      EntryAfter(t, es, es[i].id);
    }
  }

  lemma {:induction false} DistinctIdsAreLast(es: seq<LogEntry>)
    requires forall i, j :: 0 <= i < j < |es| ==> es[i].id != es[j].id && !SameLine(es[i], es[j])
    ensures forall i :: 0 <= i < |es| ==> LastWithId(es, es[i].id) == i
  {
  }

  lemma {:induction false} ChunkAfter(t: Tables, cs: seq<LogChunk>, id: string)
    ensures var t' := PutChunks(t, cs);
            OnlyChunksDiffer(t, t') &&
            (id in t'.chunks ==>
               (exists i :: 0 <= i < |cs| && cs[i].id == id && t'.chunks[id] == cs[i]) ||
               (id in t.chunks && t'.chunks[id] == t.chunks[id])) &&
            (id in t.chunks || (exists i :: 0 <= i < |cs| && cs[i].id == id) ==> id in t'.chunks)
  {
    if cs != [] {
      ChunkAfter(t, cs[..|cs| - 1], id);
    }
  }

  lemma {:induction false} NextChunkFits(t: Tables, cs: seq<LogChunk>, c: LogChunk)
    requires ChunksFit(t, cs + [c])
    ensures ChunkFits(PutChunks(t, cs), c)
  {
    var t', all := PutChunks(t, cs), cs + [c];
    assert all[|cs|] == c && ChunkFits(t, c);
    forall id | id in t'.chunks ensures id != c.id && !SameNumber(t'.chunks[id], c) {
      ChunkAfter(t, cs, id);
      if i :| 0 <= i < |cs| && cs[i].id == id && t'.chunks[id] == cs[i] {
        assert all[i] == cs[i] && all[i].id != all[|cs|].id && !SameNumber(all[i], all[|cs|]);
      }
    }
    ChunkAfter(t, cs, c.id);
  }

  lemma {:induction false} ChunksFitFront(t: Tables, cs: seq<LogChunk>)
    requires ChunksFit(t, cs) && cs != []
    ensures ChunksFit(t, cs[..|cs| - 1])
  {
    var front := cs[..|cs| - 1];
    forall i | 0 <= i < |front| ensures ChunkFits(t, front[i]) {
      assert ChunkFits(t, cs[i]);
    }
    forall i, j | 0 <= i < j < |front| ensures front[i].id != front[j].id && !SameNumber(front[i], front[j]) {
      assert cs[i].id != cs[j].id && !SameNumber(cs[i], cs[j]);
    }
  }

  lemma {:induction false} PutChunksKeepsIndexed(t: Tables, cs: seq<LogChunk>)
    requires ChunksIndexed(t.logFiles.Keys, t.chunks, t.chunksByLogFile) && ChunksFit(t, cs)
    ensures ChunksIndexed(t.logFiles.Keys, PutChunks(t, cs).chunks, PutChunks(t, cs).chunksByLogFile)
    ensures OnlyChunksDiffer(t, PutChunks(t, cs))
  {
    if cs != [] {
      var front, last := cs[..|cs| - 1], cs[|cs| - 1];
      ChunksFitFront(t, cs);
      PutChunksKeepsIndexed(t, front);
      assert ChunkFits(PutChunks(t, front), last) by {
        assert cs == front + [last];
        NextChunkFits(t, front, last);
      }
      var mid := PutChunks(t, front);
      AddChunkKeepsIndexed(t.logFiles.Keys, mid.chunks, mid.chunksByLogFile, last);
    }
  }

  lemma {:induction false} PutChunksKeepsConsistent(t: Tables, cs: seq<LogChunk>)
    requires Consistent(t) && ChunksFit(t, cs)
    ensures Consistent(PutChunks(t, cs)) && OnlyChunksDiffer(t, PutChunks(t, cs))
  {
    PutChunksKeepsIndexed(t, cs);
  }
}

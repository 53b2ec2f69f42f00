/** Creating, renaming and deleting log files, servers and check results, with the cascades deletion implies. */
module TableOps {
  import opened Prelude
  import opened Models
  import opened Tables
  import Sorting
  import Text

  // ---- Cascades: what remains when some log files go ----

  function DropRows<R>(rows: map<string, R>, fileOf: R -> string, drop: set<string>): map<string, R> {
    map id | id in rows && fileOf(rows[id]) !in drop :: rows[id]
  }

  const EntryFile: LogEntry -> string := (e: LogEntry) => e.logFileId

  function DropEntries(t: Tables, drop: set<string>): Tables {
    t.(entries := DropRows(t.entries, EntryFile, drop), entriesByLogFile := t.entriesByLogFile - drop)
  }

  function DropChunks(t: Tables, drop: set<string>): Tables {
    t.(chunks := DropRows(t.chunks, ChunkFile, drop), chunksByLogFile := t.chunksByLogFile - drop)
  }

  function DropChecks(t: Tables, drop: set<string>): Tables {
    t.(checks := DropRows(t.checks, CheckFile, drop), checksByLogFile := t.checksByLogFile - drop)
  }

  /** Everything collected from, or found about, the given log files is gone. */
  function DropCollected(t: Tables, drop: set<string>): Tables {
    DropChecks(DropChunks(DropEntries(t, drop), drop), drop)
  }

  function RemovePath(index: FileIndex, server: string, path: string): FileIndex {
    if server !in index then index
    else if index[server] - {path} == map[] then index - {server}
    else index[server := index[server] - {path}]
  }

  function EraseFile(t: Tables, id: string): Tables
    requires id in t.logFiles
  {
    DropCollected(t, {id}).(
      logFiles := t.logFiles - {id},
      logFilesByServer := RemovePath(t.logFilesByServer, t.logFiles[id].serverId, t.logFiles[id].path))
  }

  function FilesOf(t: Tables, server: string): set<string> {
    set id | id in t.logFiles && t.logFiles[id].serverId == server
  }

  function EraseServer(t: Tables, id: string): Tables {
    var drop := FilesOf(t, id);
    DropCollected(t, drop).(
      servers := t.servers - {id}, logFiles := t.logFiles - drop, logFilesByServer := t.logFilesByServer - {id})
  }

  lemma {:induction false} DropEntriesKeepsIndexed(files: set<string>, entries: map<string, LogEntry>,
                                                   index: LineIndex, drop: set<string>)
    requires EntriesIndexed(files, entries, index)
    ensures EntriesIndexed(files - drop, DropRows(entries, EntryFile, drop), index - drop)
  {
    var entries', index' := DropRows(entries, EntryFile, drop), index - drop;
    forall id | id in entries' ensures entries'[id].logFileId in files - drop && EntryListed(entries', index', id) {
      assert EntryListed(entries, index, id);
    }
    forall file, line | file in index' && line in index'[file] ensures LineResolves(entries', index', file, line) {
      assert LineResolves(entries, index, file, line);
    }
  }

  lemma {:induction false} DropRowsKeepsExact<R(!new)>(rows: map<string, R>, fileOf: R -> string, index: ListIndex,
                                                drop: set<string>)
    requires ListsExactly(rows, fileOf, index)
    ensures ListsExactly(DropRows(rows, fileOf, drop), fileOf, index - drop)
  {
  }

  lemma {:induction false} DropChunksKeepsIndexed(files: set<string>, chunks: map<string, LogChunk>, index: ListIndex,
                                                  drop: set<string>)
    requires ChunksIndexed(files, chunks, index)
    ensures ChunksIndexed(files - drop, DropRows(chunks, ChunkFile, drop), index - drop)
  {
    DropRowsKeepsExact(chunks, ChunkFile, index, drop);
  }

  lemma {:induction false} DropChecksKeepsIndexed(files: set<string>, checks: map<string, CheckResult>,
                                                  index: ListIndex, drop: set<string>)
    requires ChecksIndexed(files, checks, index)
    ensures ChecksIndexed(files - drop, DropRows(checks, CheckFile, drop), index - drop)
  {
    DropRowsKeepsExact(checks, CheckFile, index, drop);
  }

  /** Clearing the collected rows of one log file, as a reset does, keeps the tables consistent. */
  lemma {:induction false} DropEntriesKeepsConsistent(t: Tables, file: string)
    requires Consistent(t)
    ensures Consistent(DropEntries(t, {file}))
  {
    DropEntriesKeepsIndexed(t.logFiles.Keys, t.entries, t.entriesByLogFile, {file});
  }

  lemma {:induction false} DropChunksKeepsConsistent(t: Tables, file: string)
    requires Consistent(t)
    ensures Consistent(DropChunks(t, {file}))
  {
    DropChunksKeepsIndexed(t.logFiles.Keys, t.chunks, t.chunksByLogFile, {file});
  }

  lemma {:induction false} DropCollectedKeepsIndexed(t: Tables, drop: set<string>)
    requires Consistent(t)
    ensures var t' := DropCollected(t, drop);
            var files := t.logFiles.Keys - drop;
            EntriesIndexed(files, t'.entries, t'.entriesByLogFile) &&
            ChunksIndexed(files, t'.chunks, t'.chunksByLogFile) &&
            ChecksIndexed(files, t'.checks, t'.checksByLogFile)
  {
    DropEntriesKeepsIndexed(t.logFiles.Keys, t.entries, t.entriesByLogFile, drop);
    DropChunksKeepsIndexed(t.logFiles.Keys, t.chunks, t.chunksByLogFile, drop);
    DropChecksKeepsIndexed(t.logFiles.Keys, t.checks, t.checksByLogFile, drop);
  }

  lemma {:induction false} EraseFileKeepsFilesIndexed(servers: set<string>, files: map<string, LogFile>,
                                                      index: FileIndex, id: string)
    requires FilesIndexed(servers, files, index) && id in files
    ensures FilesIndexed(servers, files - {id}, RemovePath(index, files[id].serverId, files[id].path))
  {
    var server, path := files[id].serverId, files[id].path;
    var files', index' := files - {id}, RemovePath(index, server, path);
    assert FileListed(files, index, id);
    forall x | x in files' ensures files'[x].serverId in servers && FileListed(files', index', x) {
      assert FileListed(files, index, x);
      assert files[x].serverId == server ==> files[x].path in index[server] - {path};
    }
    forall s, p | s in index' && p in index'[s] ensures PathResolves(files', index', s, p) {
      assert PathResolves(files, index, s, p);
    }
  }

  lemma {:induction false} EraseFileKeepsConsistent(t: Tables, id: string)
    requires Consistent(t) && id in t.logFiles
    ensures Consistent(EraseFile(t, id))
  {
    EraseFileKeepsFilesIndexed(t.servers.Keys, t.logFiles, t.logFilesByServer, id);
    DropCollectedKeepsIndexed(t, {id});
    assert (t.logFiles - {id}).Keys == t.logFiles.Keys - {id};
  }

  lemma {:induction false} EraseServerKeepsFilesIndexed(servers: set<string>, files: map<string, LogFile>,
                                                        index: FileIndex, id: string, drop: set<string>)
    requires FilesIndexed(servers, files, index)
    requires drop == set x | x in files && files[x].serverId == id
    ensures FilesIndexed(servers - {id}, files - drop, index - {id})
  {
    var files', index' := files - drop, index - {id};
    forall x | x in files' ensures files'[x].serverId in servers - {id} && FileListed(files', index', x) {
      assert FileListed(files, index, x);
    }
    forall s, p | s in index' && p in index'[s] ensures PathResolves(files', index', s, p) {
      assert PathResolves(files, index, s, p);
    }
  }

  lemma {:induction false} EraseServerKeepsConsistent(t: Tables, id: string)
    requires Consistent(t)
    ensures Consistent(EraseServer(t, id))
  {
    EraseServerKeepsFilesIndexed(t.servers.Keys, t.logFiles, t.logFilesByServer, id, FilesOf(t, id));
    DropCollectedKeepsIndexed(t, FilesOf(t, id));
    assert (t.logFiles - FilesOf(t, id)).Keys == t.logFiles.Keys - FilesOf(t, id);
    assert (t.servers - {id}).Keys == t.servers.Keys - {id};
  }

  // ---- Log files ----

  function AddPath(index: FileIndex, f: LogFile): FileIndex {
    index[f.serverId := (if f.serverId in index then index[f.serverId] else map[])[f.path := f.id]]
  }

  function PutFile(t: Tables, f: LogFile): Tables {
    t.(logFiles := t.logFiles[f.id := f], logFilesByServer := AddPath(t.logFilesByServer, f))
  }

  predicate IsFileOf(t: Tables, server: string, f: LogFile) {
    f.id in t.logFiles && t.logFiles[f.id] == f && f.serverId == server
  }

  /** Log files are listed by path, and by id under one path. */
  predicate PathBefore(a: LogFile, b: LogFile) {
    if a.path == b.path then Text.Precedes(a.id, b.id) else Text.Precedes(a.path, b.path)
  }

  lemma {:induction false} PathBeforeComposes(a: LogFile, b: LogFile, c: LogFile)
    requires !PathBefore(b, a) && !PathBefore(c, b)
    ensures !PathBefore(c, a)
  {
    Text.PrecedesOrders(a.path, b.path);
    Text.PrecedesOrders(b.path, c.path);
    Text.PrecedesOrders(a.path, c.path);
    if a.path == b.path == c.path {
      Text.NotAfterComposes(a.id, b.id, c.id);
    } else {
      Text.NotAfterComposes(a.path, b.path, c.path);
    }
  }

  lemma {:induction false} PathBeforeOrders()
    ensures Sorting.Orders(PathBefore)
  {
    forall a, b | PathBefore(a, b) ensures !PathBefore(b, a) {
      Text.PrecedesOrders(a.path, b.path);
      Text.PrecedesOrders(a.id, b.id);
    }
    forall a, b, c | !PathBefore(b, a) && !PathBefore(c, b) ensures !PathBefore(c, a) {
      PathBeforeComposes(a, b, c);
    }
  }

  ghost predicate ByPath(items: seq<LogFile>) {
    forall i, j :: 0 <= i < j < |items| ==> Text.Precedes(items[i].path, items[j].path)
  }

  /** A server's log files, sorted, are strictly ascending by path. */
  lemma {:induction false} SortedFilesAscend(t: Tables, server: string, items: seq<LogFile>)
    requires Consistent(t) && NoDuplicates(items) && forall f :: f in items ==> IsFileOf(t, server, f)
    ensures var sorted := Sorting.Sort(items, PathBefore);
            NoDuplicates(sorted) && ByPath(sorted) && forall f :: f in sorted <==> f in items
  {
    var sorted := Sorting.Sort(items, PathBefore);
    PathBeforeOrders();
    Sorting.SortSorts(items, PathBefore);
    forall f ensures f in sorted <==> f in items {
      Sorting.SameElements(items, PathBefore, f);
    }
    SortKeepsDistinct(items);
    forall i, j | 0 <= i < j < |sorted| ensures Text.Precedes(sorted[i].path, sorted[j].path) {
      assert Sorting.InOrder(sorted, PathBefore, i, j);
      assert sorted[i] in items && sorted[j] in items;
      DifferentPaths(t, server, sorted[i], sorted[j]);
      Text.PrecedesOrders(sorted[i].path, sorted[j].path);
    }
  }

  lemma {:induction false} DifferentPaths(t: Tables, server: string, a: LogFile, b: LogFile)
    requires Consistent(t) && IsFileOf(t, server, a) && IsFileOf(t, server, b) && a != b
    ensures a.path != b.path
  {
    assert FileListed(t.logFiles, t.logFilesByServer, a.id) && FileListed(t.logFiles, t.logFilesByServer, b.id);
  }

  lemma {:induction false} SortKeepsDistinct(items: seq<LogFile>)
    requires NoDuplicates(items)
    ensures NoDuplicates(Sorting.Sort(items, PathBefore))
  {
    var sorted := Sorting.Sort(items, PathBefore);
    Sorting.SortKeepsElements(items, PathBefore);
    DistinctCounts(items);
    forall i, j | 0 <= i < j < |sorted| ensures sorted[i] != sorted[j] {
      RepeatedCounts(sorted, i, j);
      assert multiset(sorted)[sorted[i]] == multiset(items)[sorted[i]];
    }
  }

  lemma {:induction false} DistinctCounts(items: seq<LogFile>)
    requires NoDuplicates(items)
    ensures forall f :: multiset(items)[f] <= 1
  {
    if items != [] {
      var front, last := items[..|items| - 1], items[|items| - 1];
      assert items == front + [last];
      DistinctCounts(front);
      assert last !in front;
    }
  }

  lemma {:induction false} RepeatedCounts(items: seq<LogFile>, i: nat, j: nat)
    requires i < j < |items|
    ensures items[i] == items[j] ==> multiset(items)[items[i]] >= 2
  {
    assert items == items[..i + 1] + items[i + 1..];
    assert items[..i + 1][i] == items[i] && items[i + 1..][j - i - 1] == items[j];
    assert items[i] in multiset(items[..i + 1]) && items[j] in multiset(items[i + 1..]);
  }

  predicate PathTaken(t: Tables, server: string, path: string) {
    server in t.logFilesByServer && path in t.logFilesByServer[server]
  }

  lemma {:induction false} AddPathKeepsIndexed(servers: set<string>, files: map<string, LogFile>, index: FileIndex,
                                               f: LogFile)
    requires FilesIndexed(servers, files, index) && f.serverId in servers && f.id !in files
    requires !(f.serverId in index && f.path in index[f.serverId])
    ensures FilesIndexed(servers, files[f.id := f], AddPath(index, f))
  {
    var files', index' := files[f.id := f], AddPath(index, f);
    forall x | x in files' ensures files'[x].serverId in servers && FileListed(files', index', x) {
      assert x == f.id || FileListed(files, index, x);
    }
    forall s | s in index' ensures index'[s] != map[] {
      assert s == f.serverId ==> f.path in index'[s];
    }
    forall s, p | s in index' && p in index'[s] ensures PathResolves(files', index', s, p) {
      assert (s == f.serverId && p == f.path) || PathResolves(files, index, s, p);
    }
  }

  lemma {:induction false} PutFileKeepsConsistent(t: Tables, f: LogFile)
    requires Consistent(t) && f.serverId in t.servers && f.id !in t.logFiles && !PathTaken(t, f.serverId, f.path)
    ensures Consistent(PutFile(t, f))
  {
    AddPathKeepsIndexed(t.servers.Keys, t.logFiles, t.logFilesByServer, f);
    AddKeyKeepsIndexed(t, f.id);
    assert t.logFiles[f.id := f].Keys == t.logFiles.Keys + {f.id};
  }

  lemma {:induction false} AddKeyKeepsIndexed(t: Tables, id: string)
    requires Consistent(t)
    ensures var files := t.logFiles.Keys + {id};
            EntriesIndexed(files, t.entries, t.entriesByLogFile) &&
            ChunksIndexed(files, t.chunks, t.chunksByLogFile) &&
            ChecksIndexed(files, t.checks, t.checksByLogFile)
  {
  }

  function MovePath(index: FileIndex, old_: LogFile, f: LogFile): FileIndex {
    var inner := if f.serverId in index then index[f.serverId] else map[];
    index[f.serverId := if old_.path == f.path then inner else (inner - {old_.path})[f.path := f.id]]
  }

  lemma {:induction false} MovePathUnchanged(index: FileIndex, old_: LogFile, f: LogFile)
    requires f.serverId in index
    ensures old_.path == f.path ==> MovePath(index, old_, f) == index
  {
  }

  /** Replacing a log file row; a new path moves the index entry. */
  function ReplaceFile(t: Tables, f: LogFile): Tables
    requires f.id in t.logFiles
  {
    t.(logFiles := t.logFiles[f.id := f], logFilesByServer := MovePath(t.logFilesByServer, t.logFiles[f.id], f))
  }

  lemma {:induction false} MovePathKeepsIndexed(servers: set<string>, files: map<string, LogFile>, index: FileIndex,
                                                f: LogFile)
    requires FilesIndexed(servers, files, index) && f.id in files && files[f.id].serverId == f.serverId
    requires f.serverId in index && f.path in index[f.serverId] ==> index[f.serverId][f.path] == f.id
    ensures FilesIndexed(servers, files[f.id := f], MovePath(index, files[f.id], f))
  {
    var files', index' := files[f.id := f], MovePath(index, files[f.id], f);
    assert FileListed(files, index, f.id);
    forall x | x in files' ensures files'[x].serverId in servers && FileListed(files', index', x) {
      assert x == f.id || FileListed(files, index, x);
    }
    forall s | s in index' ensures index'[s] != map[] {
      assert s == f.serverId ==> f.path in index'[s];
    }
    forall s, p | s in index' && p in index'[s] ensures PathResolves(files', index', s, p) {
      assert (s == f.serverId && p == f.path) || PathResolves(files, index, s, p);
    }
  }

  /** A row may be replaced by one of the same server, under a path no other row has. */
  predicate Replaceable(t: Tables, f: LogFile) {
    f.id in t.logFiles && t.logFiles[f.id].serverId == f.serverId &&
    (PathTaken(t, f.serverId, f.path) ==> t.logFilesByServer[f.serverId][f.path] == f.id)
  }

  lemma {:induction false} ReplaceFileKeepsConsistent(t: Tables, f: LogFile)
    requires Consistent(t) && Replaceable(t, f)
    ensures Consistent(ReplaceFile(t, f))
  {
    MovePathKeepsIndexed(t.servers.Keys, t.logFiles, t.logFilesByServer, f);
    assert t.logFiles[f.id := f].Keys == t.logFiles.Keys;
  }

  // ---- Servers and check results ----

  function PutServer(t: Tables, s: Server): Tables {
    t.(servers := t.servers[s.id := s])
  }

  lemma {:induction false} PutServerKeepsConsistent(t: Tables, s: Server)
    requires Consistent(t) && s.id != "" && s.managedBy != ""
    ensures Consistent(PutServer(t, s))
  {
  }

  function PutCheck(t: Tables, c: CheckResult): Tables {
    t.(checks := t.checks[c.id := c], checksByLogFile := AddToList(t.checksByLogFile, c.logFileId, c.id))
  }

  lemma {:induction false} PutCheckKeepsConsistent(t: Tables, c: CheckResult)
    requires Consistent(t) && c.logFileId in t.logFiles && c.id !in t.checks
    ensures Consistent(PutCheck(t, c))
  {
    AddToListKeepsExact(t.checks, CheckFile, t.checksByLogFile, c.id, c);
  }

  // ---- Deleting row by row ----

  /** The ids an index names for a log file are exactly the rows of that file. */
  lemma {:induction false} ListedEntriesAreRows(files: set<string>, entries: map<string, LogEntry>, index: LineIndex,
                                                file: string, ids: set<string>)
    requires EntriesIndexed(files, entries, index) && ids == if file in index then index[file].Values else {}
    ensures entries - ids == DropRows(entries, EntryFile, {file})
  {
    forall id | id in entries ensures id in ids <==> entries[id].logFileId == file {
      assert EntryListed(entries, index, id);
      if id in ids {
        var line := KeyFor(index[file], id);
        assert LineResolves(entries, index, file, line);
      }
    }
  }

  lemma {:induction false} ListedRowsAreRows<R(!new)>(rows: map<string, R>, fileOf: R -> string, index: ListIndex,
                                               file: string)
    requires ListsExactly(rows, fileOf, index)
    ensures rows - Elements(if file in index then index[file] else []) == DropRows(rows, fileOf, {file})
  {
  }

  lemma {:induction false} DropCollectedTwice(t: Tables, a: set<string>, b: set<string>)
    ensures DropCollected(DropCollected(t, a), b) == DropCollected(t, a + b)
  {
    assert t.entriesByLogFile - a - b == t.entriesByLogFile - (a + b);
    assert t.chunksByLogFile - a - b == t.chunksByLogFile - (a + b);
    assert t.checksByLogFile - a - b == t.checksByLogFile - (a + b);
    assert DropRows(DropRows(t.entries, EntryFile, a), EntryFile, b) == DropRows(t.entries, EntryFile, a + b);
    assert DropRows(DropRows(t.chunks, ChunkFile, a), ChunkFile, b) == DropRows(t.chunks, ChunkFile, a + b);
    assert DropRows(DropRows(t.checks, CheckFile, a), CheckFile, b) == DropRows(t.checks, CheckFile, a + b);
  }

  /** A server on the way to deletion: the log files in `gone` and everything collected from them are erased, and
      other servers' paths are as they were. */
  ghost predicate PartlyErased(t: Tables, server: string, gone: set<string>, t': Tables) {
    t' == DropCollected(t, gone).(logFiles := t.logFiles - gone, logFilesByServer := t'.logFilesByServer) &&
    t'.logFilesByServer - {server} == t.logFilesByServer - {server} && Consistent(t')
  }

  lemma {:induction false} RemovePathElsewhere(index: FileIndex, server: string, path: string)
    ensures RemovePath(index, server, path) - {server} == index - {server}
  {
  }

  lemma {:induction false} EraseNextFile(t: Tables, server: string, gone: set<string>, t': Tables, id: string)
    requires PartlyErased(t, server, gone, t') && id in t'.logFiles && t'.logFiles[id].serverId == server
    ensures PartlyErased(t, server, gone + {id}, EraseFile(t', id))
  {
    var path, index := t'.logFiles[id].path, t'.logFilesByServer;
    assert Consistent(EraseFile(t', id)) by {
      EraseFileKeepsConsistent(t', id);
    }
    assert RemovePath(index, server, path) - {server} == t.logFilesByServer - {server} by {
      RemovePathElsewhere(index, server, path);
    }
    assert EraseFile(t', id) == DropCollected(t, gone + {id}).(
        logFiles := t.logFiles - (gone + {id}), logFilesByServer := RemovePath(index, server, path)) by {
      EraseAfterDrop(t, gone, index, id);
    }
  }

  lemma {:induction false} EraseAfterDrop(t: Tables, gone: set<string>, index: FileIndex, id: string)
    requires id in t.logFiles && id !in gone
    ensures EraseFile(DropCollected(t, gone).(logFiles := t.logFiles - gone, logFilesByServer := index), id) ==
              DropCollected(t, gone + {id}).(
                logFiles := t.logFiles - (gone + {id}),
                logFilesByServer := RemovePath(index, t.logFiles[id].serverId, t.logFiles[id].path))
  {
    DropCollectedTwice(t, gone, {id});
    assert t.logFiles - gone - {id} == t.logFiles - (gone + {id});
  }

  // ---- What deletion reaches ----

  predicate BelongsTo(t: Tables, file: string, server: string) {
    file in t.logFiles && t.logFiles[file].serverId == server
  }

  /** Deleting a server removes it and exactly the rows that lead back to it through their log file. */
  lemma {:induction false} EraseServerRemovesExactly(t: Tables, id: string)
    requires Consistent(t)
    ensures var t' := EraseServer(t, id);
            t'.servers == t.servers - {id} &&
            (forall f :: f in t'.logFiles <==> f in t.logFiles && !BelongsTo(t, f, id)) &&
            (forall e :: e in t'.entries <==> e in t.entries && !BelongsTo(t, t.entries[e].logFileId, id)) &&
            (forall c :: c in t'.chunks <==> c in t.chunks && !BelongsTo(t, t.chunks[c].logFileId, id)) &&
            (forall c :: c in t'.checks <==> c in t.checks && !BelongsTo(t, t.checks[c].logFileId, id)) &&
            SurvivorsUnchanged(t, t')
  {
    var drop := FilesOf(t, id);
    assert forall f :: f in drop <==> BelongsTo(t, f, id);
  }

  /** Deleting a log file removes it and exactly the rows collected from it. */
  lemma {:induction false} EraseFileRemovesExactly(t: Tables, id: string)
    requires Consistent(t) && id in t.logFiles
    ensures var t' := EraseFile(t, id);
            t'.servers == t.servers &&
            (forall f :: f in t'.logFiles <==> f in t.logFiles && f != id) &&
            (forall e :: e in t'.entries <==> e in t.entries && t.entries[e].logFileId != id) &&
            (forall c :: c in t'.chunks <==> c in t.chunks && t.chunks[c].logFileId != id) &&
            (forall c :: c in t'.checks <==> c in t.checks && t.checks[c].logFileId != id) &&
            (forall s, p :: Listed(t'.logFilesByServer, s, p) <==>
               Listed(t.logFilesByServer, s, p) && t.logFilesByServer[s][p] != id) &&
            SurvivorsUnchanged(t, t')
  {
    var f := t.logFiles[id];
    forall s, p
      ensures Listed(RemovePath(t.logFilesByServer, f.serverId, f.path), s, p) <==>
                Listed(t.logFilesByServer, s, p) && t.logFilesByServer[s][p] != id
    {
      RemovedPath(t.servers.Keys, t.logFiles, t.logFilesByServer, id, s, p);
    }
  }

  predicate Listed(index: FileIndex, server: string, path: string) {
    server in index && path in index[server]
  }

  lemma {:induction false} RemovedPath(servers: set<string>, files: map<string, LogFile>, index: FileIndex,
                                       id: string, s: string, p: string)
    requires FilesIndexed(servers, files, index) && id in files
    ensures Listed(RemovePath(index, files[id].serverId, files[id].path), s, p) <==>
              Listed(index, s, p) && index[s][p] != id
  {
    assert FileListed(files, index, id);
    assert Listed(index, s, p) ==> PathResolves(files, index, s, p);
    var own := index[files[id].serverId];
    assert p in own - {files[id].path} <==> p in own && p != files[id].path;
  }

  ghost predicate SurvivorsUnchanged(t: Tables, t': Tables) {
    (forall f :: f in t'.logFiles ==> f in t.logFiles && t'.logFiles[f] == t.logFiles[f]) &&
    (forall e :: e in t'.entries ==> e in t.entries && t'.entries[e] == t.entries[e]) &&
    (forall c :: c in t'.chunks ==> c in t.chunks && t'.chunks[c] == t.chunks[c]) &&
    (forall c :: c in t'.checks ==> c in t.checks && t'.checks[c] == t.checks[c])
  }

  // ---- Unique names and hosts ----

  predicate NameOrHostTaken(servers: map<string, Server>, fold: string -> string, s: Server, exclude: string) {
    exists id :: id in servers && Clashes(servers[id], fold, s, exclude)
  }

  predicate Clashes(other: Server, fold: string -> string, s: Server, exclude: string) {
    other.id != exclude && (fold(other.name) == fold(s.name) || fold(other.host) == fold(s.host))
  }

  lemma {:induction false} PutServerKeepsDistinct(servers: map<string, Server>, fold: string -> string, s: Server,
                                                  exclude: string)
    requires ServersKeyed(servers) && ServersDistinct(servers, fold) && !NameOrHostTaken(servers, fold, s, exclude)
    requires exclude == s.id || (s.id !in servers && exclude == "")
    ensures ServersDistinct(servers[s.id := s], fold)
  {
    forall id | id in servers && id != s.id ensures servers[id].id != exclude &&
      !Clashes(servers[id], fold, s, exclude) {
    }
  }

  lemma {:induction false} DistinctWithoutOne(servers: map<string, Server>, fold: string -> string, id: string)
    requires ServersDistinct(servers, fold)
    ensures ServersDistinct(servers - {id}, fold)
  {
  }

  lemma {:induction false} RowUpdateKeepsValid(t: Tables, fold: string -> string, s: Server)
    requires Consistent(t) && ServersDistinct(t.servers, fold) && s.id in t.servers
    requires s.name == t.servers[s.id].name && s.host == t.servers[s.id].host && s.managedBy != ""
    ensures Consistent(PutServer(t, s)) && ServersDistinct(t.servers[s.id := s], fold)
  {
    PutServerKeepsConsistent(t, s);
  }

  predicate SameRegistration(a: Server, b: Server) {
    a.id == b.id && a.name == b.name && a.host == b.host && a.managedBy == b.managedBy
  }

  /** The row after a success: reachable, one more success, failures cleared. */
  predicate ShowsSuccess(before: Server, after: Server, seenAt: int) {
    SameRegistration(before, after) && after.status == ServerActive &&
    after.successCount == before.successCount + 1 && after.failureCount == 0 && after.lastError == "" &&
    after.lastSeenAt == Some(seenAt) && after.backoffUntil == None
  }

  /** The row after a failure: in error, one more failure, with this detail and held back until then. */
  predicate ShowsFailure(before: Server, after: Server, lastError: string, backoffUntil: Option<int>) {
    SameRegistration(before, after) && after.status == ServerError &&
    after.successCount == before.successCount && after.failureCount == before.failureCount + 1 &&
    after.lastError == lastError && after.lastSeenAt == before.lastSeenAt && after.backoffUntil == backoffUntil
  }

  /** One server's row was stored, and nothing else changed. */
  predicate OnlyServerStored(t: Tables, t': Tables, s: Server) {
    t'.servers == t.servers[s.id := s] && t'.logFiles == t.logFiles && t'.logFilesByServer == t.logFilesByServer &&
    t'.entries == t.entries && t'.entriesByLogFile == t.entriesByLogFile && t'.chunks == t.chunks &&
    t'.chunksByLogFile == t.chunksByLogFile && t'.checks == t.checks && t'.checksByLogFile == t.checksByLogFile
  }

  function Succeeded(s: Server, seenAt: int): Server {
    s.(status := ServerActive, successCount := s.successCount + 1, failureCount := 0, lastError := "",
       lastSeenAt := Some(seenAt), backoffUntil := None)
  }

  function Failed(s: Server, lastError: string, backoffUntil: Option<int>): Server {
    s.(status := ServerError, failureCount := s.failureCount + 1, lastError := lastError, backoffUntil := backoffUntil)
  }

  // ---- Deleting a server, file by file ----

  /** The path index names exactly the log files of the server. */
  lemma {:induction false} ServerFilesAreListed(t: Tables, server: string, ids: seq<string>)
    requires Consistent(t)
    requires Elements(ids) == if server in t.logFilesByServer then t.logFilesByServer[server].Values else {}
    ensures Elements(ids) == FilesOf(t, server)
  {
    forall id | id in Elements(ids) ensures id in FilesOf(t, server) {
      var path := KeyFor(t.logFilesByServer[server], id);
      assert PathResolves(t.logFiles, t.logFilesByServer, server, path);
    }
    forall id | id in FilesOf(t, server) ensures id in Elements(ids) {
      assert FileListed(t.logFiles, t.logFilesByServer, id);
    }
  }

  lemma {:induction false} NothingErasedYet(t: Tables, server: string)
    requires Consistent(t)
    ensures PartlyErased(t, server, {}, t)
  {
    assert t.logFiles - {} == t.logFiles;
    DropNothing(t);
  }

  lemma {:induction false} DropNothing(t: Tables)
    ensures DropCollected(t, {}) == t
  {
    assert DropRows(t.entries, EntryFile, {}) == t.entries && t.entriesByLogFile - {} == t.entriesByLogFile;
    assert DropRows(t.chunks, ChunkFile, {}) == t.chunks && t.chunksByLogFile - {} == t.chunksByLogFile;
    assert DropRows(t.checks, CheckFile, {}) == t.checks && t.checksByLogFile - {} == t.checksByLogFile;
  }

  lemma {:induction false} StillListed(t: Tables, server: string, ids: seq<string>, i: nat, t': Tables)
    requires i < |ids| && NoDuplicates(ids) && Elements(ids) == FilesOf(t, server)
    requires PartlyErased(t, server, Elements(ids[..i]), t')
    ensures ids[i] in t'.logFiles && t'.logFiles[ids[i]].serverId == server
  {
    assert ids[i] in Elements(ids);
    assert ids[i] !in ids[..i];
  }
}

/** Reconciling discovered log paths with the stored log files of a server. */
module Discovery {
  import opened Prelude
  import opened Models
  import Collector
  import opened Tables
  import opened TableOps
  import opened Storage
  import Text

  datatype DiscoveredLog = DiscoveredLog(path: string, logType: LogType)

  // ---- Unique paths from command output ----

  predicate Mentions(found: seq<DiscoveredLog>, path: string) {
    exists i :: 0 <= i < |found| && found[i].path == path
  }

  ghost predicate DistinctPaths(found: seq<DiscoveredLog>) {
    forall i, j :: 0 <= i < j < |found| ==> found[i].path != found[j].path
  }

  /** The non-blank trimmed lines, each where it first occurs. */
  function FirstOccurrences(lines: seq<string>, classify: string -> LogType): seq<DiscoveredLog> {
    if lines == [] then [] else
      var before := FirstOccurrences(lines[..|lines| - 1], classify);
      var item := Text.TrimSpace(lines[|lines| - 1]);
      if item == "" || Mentions(before, item) then before else before + [DiscoveredLog(item, classify(item))]
  }

  lemma {:induction false} MentionsSnoc(found: seq<DiscoveredLog>, d: DiscoveredLog, path: string)
    ensures Mentions(found + [d], path) <==> Mentions(found, path) || d.path == path
  {
    var more := found + [d];
    if Mentions(found, path) {
      var i :| 0 <= i < |found| && found[i].path == path;
      assert more[i].path == path;
    }
    assert more[|found|].path == d.path;
    if Mentions(more, path) {
      var i :| 0 <= i < |more| && more[i].path == path;
      assert i < |found| ==> found[i].path == path;
    }
  }

  /** Every path once, every discovered line there, each with the type its path has. */
  lemma {:induction false} FirstOccurrencesAreUnique(lines: seq<string>, classify: string -> LogType)
    ensures DistinctPaths(FirstOccurrences(lines, classify))
    ensures forall i :: 0 <= i < |FirstOccurrences(lines, classify)| ==>
              FirstOccurrences(lines, classify)[i].logType == classify(FirstOccurrences(lines, classify)[i].path)
    ensures forall path :: Mentions(FirstOccurrences(lines, classify), path) <==>
              path != "" && exists i :: 0 <= i < |lines| && Text.TrimSpace(lines[i]) == path
  {
    if lines != [] {
      var n := |lines| - 1;
      var before, item := FirstOccurrences(lines[..n], classify), Text.TrimSpace(lines[n]);
      FirstOccurrencesAreUnique(lines[..n], classify);
      forall path ensures Mentions(FirstOccurrences(lines, classify), path) <==>
                            path != "" && exists i :: 0 <= i < |lines| && Text.TrimSpace(lines[i]) == path
      {
        MentionsSnoc(before, DiscoveredLog(item, classify(item)), path);
        if i :| 0 <= i < |lines| && Text.TrimSpace(lines[i]) == path {
          assert i < n ==> lines[..n][i] == lines[i];
        }
        if i :| 0 <= i < n && Text.TrimSpace(lines[..n][i]) == path {
          assert lines[i] == lines[..n][i];
        }
      }
    }
  }

  method ParseDiscoveredOutput(output: string, classify: string -> LogType) returns (found: seq<DiscoveredLog>)
    ensures output == "" ==> found == []
    ensures output != "" ==> found == FirstOccurrences(Text.SplitLines(Text.ReplaceReturns(output)), classify)
    ensures DistinctPaths(found)
  {
    found := [];
    if output == "" {
      return;
    }
    var seen: set<string> := {};
    var lines := Text.SplitLines(Text.ReplaceReturns(output));
    for i := 0 to |lines|
      invariant found == FirstOccurrences(lines[..i], classify)
      invariant forall path :: path in seen <==> Mentions(found, path)
    {
      assert lines[..i + 1][..i] == lines[..i];
      var item := Text.TrimSpace(lines[i]);
      if item == "" {
        continue;
      }
      if item in seen {
        continue;
      }
      seen := seen + {item};
      forall path ensures Mentions(found + [DiscoveredLog(item, classify(item))], path) <==>
                            Mentions(found, path) || item == path
      {
        MentionsSnoc(found, DiscoveredLog(item, classify(item)), path);
      }
      found := found + [DiscoveredLog(item, classify(item))];
    }
    assert lines[..|lines|] == lines;
    FirstOccurrencesAreUnique(lines, classify);
  }

  // ---- What a sync makes of each row ----

  /** The type the last mention of a path gives it. */
  function LastType(found: seq<DiscoveredLog>, path: string): LogType {
    if found == [] then UnknownType
    else if found[|found| - 1].path == path then found[|found| - 1].logType
    else LastType(found[..|found| - 1], path)
  }

  /** A stored row after the discovered paths so far were looked at. */
  function Refreshed(found: seq<DiscoveredLog>, f: LogFile): LogFile {
    if Mentions(found, f.path) then f.(logType := LastType(found, f.path), isActive := true) else f
  }

  /** A stored row after the whole sync. */
  function Settled(found: seq<DiscoveredLog>, f: LogFile): LogFile {
    if Mentions(found, f.path) then Refreshed(found, f) else f.(isActive := false)
  }

  function NewFile(id: string, server: string, path: string, logType: LogType): LogFile {
    LogFile(id, server, path, logType, NO_IDENTITY, false, 0, true)
  }

  ghost predicate OnlyFilesDiffer(t: Tables, t': Tables) {
    t' == t.(logFiles := t'.logFiles, logFilesByServer := t'.logFilesByServer)
  }

  ghost predicate IsNewFile(t: Tables, server: string, found: seq<DiscoveredLog>, f: LogFile) {
    f == NewFile(f.id, server, f.path, LastType(found, f.path)) && Mentions(found, f.path) &&
    !PathTaken(t, server, f.path)
  }

  /** A stored row of the server was treated by `row`, a row of another server left alone. */
  ghost predicate RowTreated(t: Tables, t': Tables, server: string, found: seq<DiscoveredLog>,
                             row: (seq<DiscoveredLog>, LogFile) -> LogFile, id: string)
    requires id in t.logFiles
  {
    id in t'.logFiles &&
    t'.logFiles[id] == if t.logFiles[id].serverId == server then row(found, t.logFiles[id]) else t.logFiles[id]
  }

  ghost predicate RowsTreated(t: Tables, t': Tables, server: string, found: seq<DiscoveredLog>,
                              row: (seq<DiscoveredLog>, LogFile) -> LogFile)
  {
    forall id :: id in t.logFiles ==> RowTreated(t, t', server, found, row, id)
  }

  ghost predicate NewRows(t: Tables, t': Tables, server: string, found: seq<DiscoveredLog>) {
    forall id :: id in t'.logFiles && id !in t.logFiles ==> IsNewFile(t, server, found, t'.logFiles[id])
  }

  ghost predicate PathsHaveRows(t': Tables, server: string, found: seq<DiscoveredLog>) {
    forall i :: 0 <= i < |found| ==> PathTaken(t', server, found[i].path)
  }

  /** Every stored row was treated, every other row is new and for a discovered path that was not stored, every
      discovered path has a row, and nothing but log files changed. */
  ghost predicate Reconciled(t: Tables, t': Tables, server: string, found: seq<DiscoveredLog>,
                             row: (seq<DiscoveredLog>, LogFile) -> LogFile)
  {
    OnlyFilesDiffer(t, t') && RowsTreated(t, t', server, found, row) && NewRows(t, t', server, found) &&
    PathsHaveRows(t', server, found)
  }

  // ---- One discovered path ----

  lemma {:induction false} RefreshNext(found: seq<DiscoveredLog>, d: DiscoveredLog, f: LogFile)
    ensures Refreshed(found + [d], f) ==
              if f.path == d.path then f.(logType := d.logType, isActive := true) else Refreshed(found, f)
  {
    MentionsSnoc(found, d, f.path);
    assert (found + [d])[..|found|] == found;
  }

  lemma {:induction false} NewFileStaysNew(t: Tables, server: string, found: seq<DiscoveredLog>, d: DiscoveredLog,
                                           f: LogFile)
    requires IsNewFile(t, server, found, f) && f.path != d.path
    ensures IsNewFile(t, server, found + [d], f)
  {
    MentionsSnoc(found, d, f.path);
    assert (found + [d])[..|found|] == found;
  }

  lemma {:induction false} PathOwner(t: Tables, server: string, path: string) returns (f: LogFile)
    requires Consistent(t) && PathTaken(t, server, path)
    ensures f.id == t.logFilesByServer[server][path] && IsFileOf(t, server, f) && f.path == path
    ensures forall id :: id in t.logFiles && t.logFiles[id].serverId == server && t.logFiles[id].path == path ==>
            id == f.id
  {
    var id := t.logFilesByServer[server][path];
    assert PathResolves(t.logFiles, t.logFilesByServer, server, path);
    assert FileListed(t.logFiles, t.logFilesByServer, id);
    f := t.logFiles[id];
    forall x | x in t.logFiles && t.logFiles[x].serverId == server && t.logFiles[x].path == path ensures x == f.id {
      assert FileListed(t.logFiles, t.logFilesByServer, x);
    }
  }

  lemma {:induction false} FileTakesPath(t: Tables, id: string)
    requires Consistent(t) && id in t.logFiles
    ensures t.logFiles[id].id == id && PathTaken(t, t.logFiles[id].serverId, t.logFiles[id].path)
    ensures t.logFilesByServer[t.logFiles[id].serverId][t.logFiles[id].path] == id
  {
    assert FileListed(t.logFiles, t.logFilesByServer, id);
  }

  /** The rows the service works on, by path: the server's stored files as they are now. */
  ghost predicate Tracks(t: Tables, now: Tables, server: string, byPath: map<string, LogFile>) {
    forall path :: (path in byPath <==> PathTaken(t, server, path)) &&
                   (path in byPath ==>
                      byPath[path].id in now.logFiles && now.logFiles[byPath[path].id] == byPath[path] &&
                      byPath[path].id == t.logFilesByServer[server][path] && byPath[path].path == path &&
                      byPath[path].serverId == server)
  }

  function WithRow(t: Tables, f: LogFile): Tables {
    t.(logFiles := t.logFiles[f.id := f])
  }

  lemma {:induction false} ReplaceKeepsIndex(t: Tables, f: LogFile)
    requires Consistent(t) && f.id in t.logFiles && t.logFiles[f.id].serverId == f.serverId &&
             t.logFiles[f.id].path == f.path
    ensures Replaceable(t, f) && ReplaceFile(t, f) == WithRow(t, f) && Consistent(WithRow(t, f))
  {
    FileTakesPath(t, f.id);
    MovePathUnchanged(t.logFilesByServer, t.logFiles[f.id], f);
    ReplaceFileKeepsConsistent(t, f);
  }

  ghost predicate OnlyRowAt(t: Tables, server: string, path: string, id: string) {
    id in t.logFiles && t.logFiles[id].serverId == server && t.logFiles[id].path == path &&
    forall x :: x in t.logFiles && t.logFiles[x].serverId == server && t.logFiles[x].path == path ==> x == id
  }

  ghost predicate NoRowAt(t: Tables, server: string, path: string) {
    forall x :: x in t.logFiles && t.logFiles[x].serverId == server ==> t.logFiles[x].path != path
  }

  lemma {:induction false} FreePathHasNoRow(t: Tables, server: string, path: string)
    requires Consistent(t) && !PathTaken(t, server, path)
    ensures NoRowAt(t, server, path)
  {
    forall x | x in t.logFiles && t.logFiles[x].serverId == server ensures t.logFiles[x].path != path {
      FileTakesPath(t, x);
    }
  }

  lemma {:induction false} RefreshRows(t: Tables, now: Tables, server: string, found: seq<DiscoveredLog>,
                                       d: DiscoveredLog, f: LogFile)
    requires RowsTreated(t, now, server, found, Refreshed) && OnlyRowAt(t, server, d.path, f.id)
    requires f.id in now.logFiles && now.logFiles[f.id] == f
    ensures RowsTreated(t, WithRow(now, f.(logType := d.logType, isActive := true)), server, found + [d], Refreshed)
  {
    var now' := WithRow(now, f.(logType := d.logType, isActive := true));
    forall id | id in t.logFiles ensures RowTreated(t, now', server, found + [d], Refreshed, id) {
      assert RowTreated(t, now, server, found, Refreshed, id);
      RefreshNext(found, d, t.logFiles[id]);
    }
  }

  lemma {:induction false} NewRowsStay(t: Tables, now: Tables, now': Tables, server: string, found: seq<DiscoveredLog>,
                                       d: DiscoveredLog)
    requires NewRows(t, now, server, found)
    requires forall id :: id in now'.logFiles && id !in t.logFiles ==>
               (id in now.logFiles && now'.logFiles[id] == now.logFiles[id] && now.logFiles[id].path != d.path) ||
               IsNewFile(t, server, found + [d], now'.logFiles[id])
    ensures NewRows(t, now', server, found + [d])
  {
    forall id | id in now'.logFiles && id !in t.logFiles ensures IsNewFile(t, server, found + [d], now'.logFiles[id]) {
      if id in now.logFiles && now'.logFiles[id] == now.logFiles[id] && now.logFiles[id].path != d.path {
        NewFileStaysNew(t, server, found, d, now.logFiles[id]);
      }
    }
  }

  lemma {:induction false} RefreshOne(t: Tables, now: Tables, server: string, found: seq<DiscoveredLog>,
                                      d: DiscoveredLog, f: LogFile)
    requires Reconciled(t, now, server, found, Refreshed) && OnlyRowAt(t, server, d.path, f.id)
    requires PathTaken(t, server, d.path) && PathTaken(now, server, d.path)
    requires f.id in now.logFiles && now.logFiles[f.id] == f
    ensures Reconciled(t, WithRow(now, f.(logType := d.logType, isActive := true)), server, found + [d], Refreshed)
  {
    var now' := WithRow(now, f.(logType := d.logType, isActive := true));
    RefreshRows(t, now, server, found, d, f);
    forall id | id in now.logFiles && id !in t.logFiles ensures now.logFiles[id].path != d.path {
      assert IsNewFile(t, server, found, now.logFiles[id]);
    }
    NewRowsStay(t, now, now', server, found, d);
  }

  lemma {:induction false} CreateRows(t: Tables, now: Tables, server: string, found: seq<DiscoveredLog>,
                                      d: DiscoveredLog, f: LogFile)
    requires RowsTreated(t, now, server, found, Refreshed) && NoRowAt(t, server, d.path) && f.id !in now.logFiles
    ensures RowsTreated(t, PutFile(now, f), server, found + [d], Refreshed)
  {
    forall id | id in t.logFiles ensures RowTreated(t, PutFile(now, f), server, found + [d], Refreshed, id) {
      assert RowTreated(t, now, server, found, Refreshed, id);
      RefreshNext(found, d, t.logFiles[id]);
    }
  }

  lemma {:induction false} CreateOne(t: Tables, now: Tables, server: string, found: seq<DiscoveredLog>,
                                     d: DiscoveredLog, f: LogFile)
    requires Reconciled(t, now, server, found, Refreshed)
    requires NoRowAt(t, server, d.path) && NoRowAt(now, server, d.path) && !PathTaken(t, server, d.path)
    requires f == NewFile(f.id, server, d.path, d.logType) && f.id !in now.logFiles
    ensures Reconciled(t, PutFile(now, f), server, found + [d], Refreshed)
  {
    var now' := PutFile(now, f);
    CreateRows(t, now, server, found, d, f);
    assert IsNewFile(t, server, found + [d], f) by {
      MentionsSnoc(found, d, d.path);
    }
    forall id | id in now.logFiles && id !in t.logFiles ensures now.logFiles[id].path != d.path {
      assert IsNewFile(t, server, found, now.logFiles[id]);
    }
    NewRowsStay(t, now, now', server, found, d);
  }

  // ---- The first loop ----

  /** Whether a path that is not stored yet can get its row: the server exists and the path was not met before. */
  predicate Creatable(t: Tables, server: string, found: seq<DiscoveredLog>, i: nat)
    requires i < |found|
  {
    PathTaken(t, server, found[i].path) || (server in t.servers && !Mentions(found[..i], found[i].path))
  }

  lemma {:induction false} NewPathsAreMentioned(t: Tables, now: Tables, server: string, found: seq<DiscoveredLog>,
                                                path: string)
    requires Consistent(t) && Consistent(now) && Reconciled(t, now, server, found, Refreshed)
    ensures PathTaken(now, server, path) <==> PathTaken(t, server, path) || Mentions(found, path)
  {
    if PathTaken(now, server, path) {
      var f := PathOwner(now, server, path);
      if f.id in t.logFiles {
        FileTakesPath(t, f.id);
      } else {
        assert IsNewFile(t, server, found, now.logFiles[f.id]);
      }
    }
    if PathTaken(t, server, path) {
      var f := PathOwner(t, server, path);
      FileTakesPath(now, f.id);
    }
  }

  lemma {:induction false} StoredPath(t: Tables, now: Tables, server: string, path: string,
                                      byPath: map<string, LogFile>)
    requires Consistent(t) && Consistent(now) && Tracks(t, now, server, byPath) && path in byPath
    ensures OnlyRowAt(t, server, path, byPath[path].id) && PathTaken(t, server, path) && PathTaken(now, server, path)
    ensures byPath[path].id in now.logFiles && now.logFiles[byPath[path].id] == byPath[path]
    ensures byPath[path].path == path && byPath[path].serverId == server
  {
    var f := PathOwner(t, server, path);
    FileTakesPath(now, byPath[path].id);
  }

  lemma {:induction false} TrackRefreshed(t: Tables, now: Tables, server: string, byPath: map<string, LogFile>,
                                          f: LogFile)
    requires Tracks(t, now, server, byPath) && f.path in byPath && byPath[f.path].id == f.id && f.serverId == server
    ensures Tracks(t, WithRow(now, f), server, byPath[f.path := f])
  {
  }

  /** Storing a changed row under its own path. */
  method SaveRow(store: Store, f: LogFile)
    requires store.Valid() && f.id in store.logFiles
    requires store.logFiles[f.id].serverId == f.serverId && store.logFiles[f.id].path == f.path
    modifies store
    ensures store.Valid() && store.State() == WithRow(old(store.State()), f)
  {
    ReplaceKeepsIndex(store.State(), f);
    var r := store.UpdateLogFile(f);
  }

  lemma {:induction false} RefreshTracked(t: Tables, now: Tables, server: string, found: seq<DiscoveredLog>,
                                          d: DiscoveredLog, byPath: map<string, LogFile>)
    requires Consistent(t) && Consistent(now) && d.path in byPath
    requires Reconciled(t, now, server, found, Refreshed) && Tracks(t, now, server, byPath)
    ensures var row := byPath[d.path].(logType := d.logType, isActive := true);
            Reconciled(t, WithRow(now, row), server, found + [d], Refreshed) &&
            Tracks(t, WithRow(now, row), server, byPath[d.path := row])
    ensures byPath[d.path].id in now.logFiles && now.logFiles[byPath[d.path].id] == byPath[d.path]
  {
    var row := byPath[d.path].(logType := d.logType, isActive := true);
    StoredPath(t, now, server, d.path, byPath);
    RefreshOne(t, now, server, found, d, byPath[d.path]);
    TrackRefreshed(t, now, server, byPath, row);
  }

  lemma {:induction false} AlreadyRight(now: Tables, byPath: map<string, LogFile>, d: DiscoveredLog)
    requires d.path in byPath && byPath[d.path].logType == d.logType && byPath[d.path].isActive
    requires byPath[d.path].id in now.logFiles && now.logFiles[byPath[d.path].id] == byPath[d.path]
    ensures var row := byPath[d.path].(logType := d.logType, isActive := true);
            WithRow(now, row) == now && byPath[d.path := row] == byPath
  {
  }

  /** Refreshing a stored row. Nothing is written when the row is already right. */
  method RefreshStored(store: Store, ghost t: Tables, server: string, ghost found: seq<DiscoveredLog>, d: DiscoveredLog,
                       byPath: map<string, LogFile>)
    returns (byPath': map<string, LogFile>, writes: nat)
    requires store.Valid() && Consistent(t) && d.path in byPath
    requires Reconciled(t, store.State(), server, found, Refreshed) && Tracks(t, store.State(), server, byPath)
    modifies store
    ensures store.Valid()
    ensures Reconciled(t, store.State(), server, found + [d], Refreshed) && Tracks(t, store.State(), server, byPath')
    ensures byPath[d.path].logType == d.logType && byPath[d.path].isActive ==>
              writes == 0 && store.State() == old(store.State()) && byPath' == byPath
  {
    RefreshTracked(t, store.State(), server, found, d, byPath);
    byPath', writes := byPath, 0;
    var current := byPath[d.path];
    if current.logType != d.logType || !current.isActive {
      current := current.(logType := d.logType, isActive := true);
      SaveRow(store, current);
      byPath' := byPath[d.path := current];
      writes := 1;
    } else {
      AlreadyRight(store.State(), byPath, d);
    }
  }

  lemma {:induction false} CreateUnstored(t: Tables, now: Tables, server: string, found: seq<DiscoveredLog>,
                                          d: DiscoveredLog, f: LogFile, byPath: map<string, LogFile>)
    requires Consistent(t) && Consistent(now) && !PathTaken(t, server, d.path) && !PathTaken(now, server, d.path)
    requires Reconciled(t, now, server, found, Refreshed) && Tracks(t, now, server, byPath)
    requires f == NewFile(f.id, server, d.path, d.logType) && f.id !in now.logFiles
    ensures Reconciled(t, PutFile(now, f), server, found + [d], Refreshed) && Tracks(t, PutFile(now, f), server, byPath)
  {
    FreePathHasNoRow(t, server, d.path);
    FreePathHasNoRow(now, server, d.path);
    CreateOne(t, now, server, found, d, f);
  }

  method AddFile(store: Store, server: string, d: DiscoveredLog) returns (ok: bool, ghost f: LogFile)
    requires store.Valid()
    modifies store
    ensures store.Valid()
    ensures ok <==> server in old(store.servers) && !PathTaken(old(store.State()), server, d.path)
    ensures ok ==> store.State() == PutFile(old(store.State()), f)
    ensures ok ==> f == NewFile(f.id, server, d.path, d.logType) && f.id !in old(store.logFiles)
  {
    var r := store.CreateLogFile(NewFile("", server, d.path, d.logType));
    ok := r.Success?;
    f := if ok then r.value else NewFile("", server, d.path, d.logType);
  }

  method CreateDiscovered(store: Store, ghost t: Tables, server: string, ghost found: seq<DiscoveredLog>,
                          d: DiscoveredLog, ghost byPath: map<string, LogFile>)
    returns (ok: bool)
    requires store.Valid() && Consistent(t) && !PathTaken(t, server, d.path)
    requires Reconciled(t, store.State(), server, found, Refreshed) && Tracks(t, store.State(), server, byPath)
    modifies store
    ensures store.Valid()
    ensures ok <==> server in t.servers && !Mentions(found, d.path)
    ensures ok ==> Reconciled(t, store.State(), server, found + [d], Refreshed)
    ensures ok ==> Tracks(t, store.State(), server, byPath)
  {
    ghost var now := store.State();
    assert PathTaken(now, server, d.path) <==> Mentions(found, d.path) by {
      NewPathsAreMentioned(t, now, server, found, d.path);
    }
    ghost var f: LogFile;
    ok, f := AddFile(store, server, d);
    if ok {
      assert Reconciled(t, PutFile(now, f), server, found + [d], Refreshed) &&
             Tracks(t, PutFile(now, f), server, byPath) by {
        CreateUnstored(t, now, server, found, d, f, byPath);
      }
    }
  }

  // ---- A sync that has nothing to do ----

  ghost predicate RowIsRight(t: Tables, server: string, d: DiscoveredLog) {
    exists id :: OnlyRowAt(t, server, d.path, id) && t.logFiles[id].logType == d.logType && t.logFiles[id].isActive
  }

  ghost predicate AllRight(t: Tables, server: string, found: seq<DiscoveredLog>) {
    forall i :: 0 <= i < |found| ==> RowIsRight(t, server, found[i])
  }

  /** Every discovered path has an active row of its type, and no other row of the server is active. */
  ghost predicate Synced(t: Tables, server: string, found: seq<DiscoveredLog>) {
    AllRight(t, server, found) &&
    (forall id :: id in t.logFiles && t.logFiles[id].serverId == server && !Mentions(found, t.logFiles[id].path) ==>
       !t.logFiles[id].isActive)
  }

  lemma {:induction false} RightRowIsTracked(t: Tables, server: string, d: DiscoveredLog, byPath: map<string, LogFile>)
    requires Consistent(t) && Tracks(t, t, server, byPath) && RowIsRight(t, server, d)
    ensures d.path in byPath && byPath[d.path].logType == d.logType && byPath[d.path].isActive
  {
    var id :| OnlyRowAt(t, server, d.path, id) && t.logFiles[id].logType == d.logType && t.logFiles[id].isActive;
    FileTakesPath(t, id);
    StoredPath(t, t, server, d.path, byPath);
  }

  ghost predicate AllCreatable(t: Tables, server: string, found: seq<DiscoveredLog>, n: nat)
    requires n <= |found|
  {
    forall k :: 0 <= k < n ==> Creatable(t, server, found, k)
  }

  /** The first loop after `i` discovered paths. */
  ghost predicate Progress(t: Tables, now: Tables, server: string, found: seq<DiscoveredLog>, i: nat,
                           byPath: map<string, LogFile>, writes: nat)
  {
    i <= |found| && Reconciled(t, now, server, found[..i], Refreshed) && Tracks(t, now, server, byPath) &&
    AllCreatable(t, server, found, i) && (AllRight(t, server, found) ==> writes == 0 && now == t)
  }

  method SyncNext(store: Store, ghost t: Tables, server: string, found: seq<DiscoveredLog>, i: nat,
                  byPath: map<string, LogFile>, writes: nat)
    returns (ok: bool, byPath': map<string, LogFile>, writes': nat)
    requires store.Valid() && Consistent(t) && i < |found| &&
             Progress(t, store.State(), server, found, i, byPath, writes)
    modifies store
    ensures store.Valid()
    ensures ok ==> Progress(t, store.State(), server, found, i + 1, byPath', writes')
    ensures !ok ==> !Creatable(t, server, found, i) && !AllRight(t, server, found)
  {
    assert found[..i + 1] == found[..i] + [found[i]];
    assert AllRight(t, server, found) ==>
             found[i].path in byPath && byPath[found[i].path].logType == found[i].logType &&
               byPath[found[i].path].isActive by {
      if AllRight(t, server, found) {
        RightRowIsTracked(t, server, found[i], byPath);
      }
    }
    if found[i].path in byPath {
      ok := true;
      byPath', writes' := RefreshStored(store, t, server, found[..i], found[i], byPath);
      writes' := writes + writes';
    } else {
      byPath', writes' := byPath, writes + 1;
      ok := CreateDiscovered(store, t, server, found[..i], found[i], byPath);
    }
  }

  method SyncDiscovered(store: Store, ghost t: Tables, server: string, found: seq<DiscoveredLog>,
                        stored: map<string, LogFile>)
    returns (ok: bool, writes: nat)
    requires store.Valid() && store.State() == t && Tracks(t, t, server, stored)
    modifies store
    ensures store.Valid()
    ensures ok <==> AllCreatable(t, server, found, |found|)
    ensures ok ==> Reconciled(t, store.State(), server, found, Refreshed)
    ensures AllRight(t, server, found) ==> ok && writes == 0 && store.State() == t
  {
    var byPath := stored;
    writes := 0;
    assert Reconciled(t, t, server, found[..0], Refreshed);
    for i := 0 to |found|
      invariant store.Valid()
      invariant Progress(t, store.State(), server, found, i, byPath, writes)
    {
      ok, byPath, writes := SyncNext(store, t, server, found, i, byPath, writes);
      if !ok {
        return;
      }
    }
    assert found[..|found|] == found;
    ok := true;
  }

  // ---- The second loop ----

  ghost predicate OffRow(mid: Tables, now: Tables, found: seq<DiscoveredLog>, done: set<string>, id: string)
    requires id in mid.logFiles
  {
    id in now.logFiles &&
    now.logFiles[id] == if id in done && !Mentions(found, mid.logFiles[id].path)
                        then mid.logFiles[id].(isActive := false) else mid.logFiles[id]
  }

  /** Of the rows in `done`, those whose path was not discovered are switched off. */
  ghost predicate SwitchedOff(mid: Tables, now: Tables, found: seq<DiscoveredLog>, done: set<string>) {
    now == mid.(logFiles := now.logFiles) && now.logFiles.Keys == mid.logFiles.Keys &&
    forall id :: id in mid.logFiles ==> OffRow(mid, now, found, done, id)
  }

  lemma {:induction false} SwitchOffNext(mid: Tables, now: Tables, found: seq<DiscoveredLog>, done: set<string>,
                                         f: LogFile)
    requires SwitchedOff(mid, now, found, done) && f.id in mid.logFiles && f.id !in done && mid.logFiles[f.id] == f
    ensures SwitchedOff(mid, if Mentions(found, f.path) then now
                        else WithRow(now, f.(isActive := false)), found, done + {f.id})
  {
    var now' := if Mentions(found, f.path) then now else WithRow(now, f.(isActive := false));
    assert OffRow(mid, now, found, done, f.id);
    assert now'.logFiles.Keys == mid.logFiles.Keys;
    forall id | id in mid.logFiles ensures OffRow(mid, now', found, done + {f.id}, id) {
      assert OffRow(mid, now, found, done, id);
    }
  }

  lemma {:induction false} AlreadyOff(t: Tables, f: LogFile)
    requires f.id in t.logFiles && t.logFiles[f.id] == f && !f.isActive
    ensures WithRow(t, f.(isActive := false)) == t
  {
  }

  lemma {:induction false} UnmentionedRowIsCurrent(t: Tables, mid: Tables, now: Tables, server: string,
                                                   found: seq<DiscoveredLog>, done: set<string>, f: LogFile)
    requires Reconciled(t, mid, server, found, Refreshed) && SwitchedOff(mid, now, found, done)
    requires IsFileOf(t, server, f) && f.id !in done
    ensures f.id in now.logFiles && f.id in mid.logFiles
    ensures now.logFiles[f.id] == mid.logFiles[f.id] == Refreshed(found, f)
  {
    assert RowTreated(t, mid, server, found, Refreshed, f.id);
    assert OffRow(mid, now, found, done, f.id);
  }

  method SwitchOffOne(store: Store, ghost t: Tables, ghost mid: Tables, server: string, found: seq<DiscoveredLog>,
                      paths: set<string>, ghost done: set<string>, item: LogFile)
    returns (writes: nat)
    requires store.Valid() && Reconciled(t, mid, server, found, Refreshed)
    requires SwitchedOff(mid, store.State(), found, done) && IsFileOf(t, server, item) && item.id !in done
    requires forall path :: path in paths <==> Mentions(found, path)
    modifies store
    ensures store.Valid() && SwitchedOff(mid, store.State(), found, done + {item.id})
    ensures Mentions(found, item.path) || !item.isActive ==> writes == 0 && store.State() == old(store.State())
  {
    ghost var now := store.State();
    writes := 0;
    UnmentionedRowIsCurrent(t, mid, now, server, found, done, item);
    SwitchOffNext(mid, now, found, done, now.logFiles[item.id]);
    if item.path in paths {
      return;
    }
    if !item.isActive {
      AlreadyOff(now, item);
      return;
    }
    SaveRow(store, item.(isActive := false));
    writes := 1;
  }

  ghost function IdsOf(files: seq<LogFile>): set<string> {
    set i | 0 <= i < |files| :: files[i].id
  }

  lemma {:induction false} IdsOfNext(t: Tables, server: string, files: seq<LogFile>, i: nat)
    requires i < |files| && NoDuplicates(files) && forall f :: f in files ==> IsFileOf(t, server, f)
    ensures IdsOf(files[..i + 1]) == IdsOf(files[..i]) + {files[i].id}
    ensures files[i].id !in IdsOf(files[..i])
  {
    assert files[..i + 1] == files[..i] + [files[i]];
    forall k | 0 <= k < i ensures files[k].id != files[i].id {
      assert files[k] in files && files[i] in files;
    }
    forall id | id in IdsOf(files[..i]) ensures id in IdsOf(files[..i + 1]) {
      var k :| 0 <= k < i && files[..i][k].id == id;
      assert files[..i + 1][k].id == id;
    }
    assert files[..i + 1][i].id == files[i].id;
  }

  method SwitchOffMissing(store: Store, ghost t: Tables, server: string, found: seq<DiscoveredLog>,
                          existing: seq<LogFile>)
    returns (writes: nat)
    requires store.Valid() && Reconciled(t, store.State(), server, found, Refreshed)
    requires NoDuplicates(existing) && forall f :: f in existing ==> IsFileOf(t, server, f)
    modifies store
    ensures store.Valid() && SwitchedOff(old(store.State()), store.State(), found, IdsOf(existing))
    ensures Synced(t, server, found) ==> writes == 0 && store.State() == old(store.State())
  {
    var paths: set<string> := set i | 0 <= i < |found| :: found[i].path;
    ghost var mid := store.State();
    ghost var done: set<string> := {};
    writes := 0;
    for i := 0 to |existing|
      invariant store.Valid() && done == IdsOf(existing[..i])
      invariant SwitchedOff(mid, store.State(), found, done)
      invariant Synced(t, server, found) ==> writes == 0 && store.State() == mid
    {
      IdsOfNext(t, server, existing, i);
      assert existing[i] in existing;
      var n := SwitchOffOne(store, t, mid, server, found, paths, done, existing[i]);
      writes := writes + n;
      done := done + {existing[i].id};
    }
    assert existing[..|existing|] == existing;
  }

  // ---- The whole sync ----

  lemma {:induction false} SettledRows(t: Tables, mid: Tables, now: Tables, server: string, found: seq<DiscoveredLog>,
                                       done: set<string>)
    requires Reconciled(t, mid, server, found, Refreshed) && SwitchedOff(mid, now, found, done)
    requires forall id :: id in done <==> id in t.logFiles && t.logFiles[id].serverId == server
    ensures Reconciled(t, now, server, found, Settled)
  {
    forall id | id in t.logFiles ensures RowTreated(t, now, server, found, Settled, id) {
      assert RowTreated(t, mid, server, found, Refreshed, id);
      assert OffRow(mid, now, found, done, id);
    }
    forall id | id in now.logFiles && id !in t.logFiles ensures IsNewFile(t, server, found, now.logFiles[id]) {
      assert OffRow(mid, now, found, done, id);
    }
  }

  method IndexByPath(store: Store, server: string, existing: seq<LogFile>) returns (byPath: map<string, LogFile>)
    requires store.Valid() && forall f :: f in existing <==> IsFileOf(store.State(), server, f)
    ensures Tracks(store.State(), store.State(), server, byPath)
  {
    byPath := map[];
    for i := 0 to |existing|
      invariant forall path :: path in byPath ==> byPath[path].path == path && byPath[path] in existing
      invariant forall k :: 0 <= k < i ==> existing[k].path in byPath
    {
      byPath := byPath[existing[i].path := existing[i]];
    }
    IndexTracks(store.State(), server, existing, byPath);
  }

  lemma {:induction false} IndexTracks(t: Tables, server: string, existing: seq<LogFile>, byPath: map<string, LogFile>)
    requires Consistent(t) && forall f :: f in existing <==> IsFileOf(t, server, f)
    requires forall path :: path in byPath ==> byPath[path].path == path && byPath[path] in existing
    requires forall k :: 0 <= k < |existing| ==> existing[k].path in byPath
    ensures Tracks(t, t, server, byPath)
  {
    forall path
      ensures path in byPath <==> PathTaken(t, server, path)
      ensures path in byPath ==> byPath[path].id == t.logFilesByServer[server][path]
    {
      if path in byPath {
        FileTakesPath(t, byPath[path].id);
      }
      if PathTaken(t, server, path) {
        var f := PathOwner(t, server, path);
        assert f in existing;
        var k :| 0 <= k < |existing| && existing[k] == f;
      }
    }
  }

  /** A sync brings exactly the server's rows in line with what was discovered. It fails only when a new path cannot get
      a row, and writes nothing when everything is in line already. */
  method Sync(store: Store, server: string, found: seq<DiscoveredLog>) returns (r: Outcome<seq<LogFile>>, writes: nat)
    requires store.Valid()
    modifies store
    ensures store.Valid()
    ensures r.Success? <==> AllCreatable(old(store.State()), server, found, |found|)
    ensures r.Success? ==> Reconciled(old(store.State()), store.State(), server, found, Settled)
    ensures r.Success? ==> forall f :: f in r.value <==> IsFileOf(store.State(), server, f)
    ensures Synced(old(store.State()), server, found) ==>
              r.Success? && writes == 0 && store.State() == old(store.State())
  {
    ghost var t := store.State();
    var existing := store.ListLogFilesByServer(server);
    var byPath := IndexByPath(store, server, existing);
    var ok: bool;
    ok, writes := SyncDiscovered(store, t, server, found, byPath);
    if !ok {
      return Failure(Conflict), writes;
    }
    ghost var mid := store.State();
    var n := SwitchOffMissing(store, t, server, found, existing);
    writes := writes + n;
    SettledRows(t, mid, store.State(), server, found, IdsOf(existing)) by {
      ExistingIds(t, server, existing);
    }
    var files := store.ListLogFilesByServer(server);
    r := Success(files);
  }

  lemma {:induction false} ExistingIds(t: Tables, server: string, existing: seq<LogFile>)
    requires Consistent(t) && forall f :: f in existing <==> IsFileOf(t, server, f)
    ensures forall id :: id in IdsOf(existing) <==> id in t.logFiles && t.logFiles[id].serverId == server
  {
    forall id | id in IdsOf(existing) ensures id in t.logFiles && t.logFiles[id].serverId == server {
      var i :| 0 <= i < |existing| && existing[i].id == id;
      assert existing[i] in existing;
    }
    forall id | id in t.logFiles && t.logFiles[id].serverId == server ensures id in IdsOf(existing) {
      FileTakesPath(t, id);
      assert t.logFiles[id] in existing;
      var i :| 0 <= i < |existing| && existing[i] == t.logFiles[id];
    }
  }

  // ---- What a sync means ----

  lemma {:induction false} SyncedRow(t: Tables, t': Tables, server: string, found: seq<DiscoveredLog>, id: string)
    requires Reconciled(t, t', server, found, Settled) && id in t'.logFiles && t'.logFiles[id].serverId == server
    ensures t'.logFiles[id].isActive <==> Mentions(found, t'.logFiles[id].path)
    ensures t'.logFiles[id].isActive ==> t'.logFiles[id].logType == LastType(found, t'.logFiles[id].path)
  {
    if id in t.logFiles {
      assert RowTreated(t, t', server, found, Settled, id);
    } else {
      assert IsNewFile(t, server, found, t'.logFiles[id]);
    }
  }

  /** A log file of the server is active exactly if its path was discovered, and then has the discovered type. */
  ghost predicate ActiveIffDiscovered(t: Tables, server: string, found: seq<DiscoveredLog>) {
    forall id :: id in t.logFiles && t.logFiles[id].serverId == server ==>
      (t.logFiles[id].isActive <==> Mentions(found, t.logFiles[id].path)) &&
      (t.logFiles[id].isActive ==> t.logFiles[id].logType == LastType(found, t.logFiles[id].path))
  }

  ghost predicate HasOneRow(t: Tables, server: string, path: string) {
    exists id :: OnlyRowAt(t, server, path, id)
  }

  ghost predicate OneRowPerPath(t: Tables, server: string, found: seq<DiscoveredLog>) {
    forall i :: 0 <= i < |found| ==> HasOneRow(t, server, found[i].path)
  }

  /** Apart from type and activity, every stored row, with its counters and identity, is as before. */
  ghost predicate NothingLost(t: Tables, t': Tables) {
    forall id :: id in t.logFiles ==>
      id in t'.logFiles &&
      t'.logFiles[id] == t.logFiles[id].(logType := t'.logFiles[id].logType, isActive := t'.logFiles[id].isActive)
  }

  ghost predicate OtherServersKept(t: Tables, t': Tables, server: string) {
    forall id :: id in t'.logFiles && t'.logFiles[id].serverId != server ==>
      id in t.logFiles && t'.logFiles[id] == t.logFiles[id]
  }

  /** A row that was added was discovered, belongs to this server, is active, and starts with nothing collected. */
  ghost predicate AddedRowsAreFresh(t: Tables, t': Tables, server: string, found: seq<DiscoveredLog>) {
    forall id :: id in t'.logFiles && id !in t.logFiles ==>
      var f := t'.logFiles[id];
      f.serverId == server && Mentions(found, f.path) && !PathTaken(t, server, f.path) && f.isActive && !f.scanned &&
      f.lastLineNumber == 0 && !Collector.HasIdentity(f.identity)
  }

  /** A log file that was not discovered any more is switched off and keeps its type. */
  ghost predicate UndiscoveredKeepType(t: Tables, t': Tables, found: seq<DiscoveredLog>) {
    forall id :: id in t.logFiles && id in t'.logFiles && !Mentions(found, t.logFiles[id].path) ==>
      t'.logFiles[id].logType == t.logFiles[id].logType
  }

  lemma {:induction false} SyncedRowsAreFresh(t: Tables, t': Tables, server: string, found: seq<DiscoveredLog>)
    requires Reconciled(t, t', server, found, Settled)
    ensures AddedRowsAreFresh(t, t', server, found) && UndiscoveredKeepType(t, t', found)
  {
    forall id | id in t'.logFiles && id !in t.logFiles ensures IsNewFile(t, server, found, t'.logFiles[id]) {
    }
    forall id | id in t.logFiles && id in t'.logFiles && !Mentions(found, t.logFiles[id].path)
      ensures t'.logFiles[id].logType == t.logFiles[id].logType
    {
      assert RowTreated(t, t', server, found, Settled, id);
    }
  }

  lemma {:induction false} SyncKeepsRows(t: Tables, t': Tables, server: string, found: seq<DiscoveredLog>)
    requires Reconciled(t, t', server, found, Settled)
    ensures NothingLost(t, t') && OtherServersKept(t, t', server)
  {
    forall id | id in t.logFiles
      ensures id in t'.logFiles &&
              t'.logFiles[id] == t.logFiles[id].(logType := t'.logFiles[id].logType,
                                                 isActive := t'.logFiles[id].isActive)
    {
      assert RowTreated(t, t', server, found, Settled, id);
    }
    forall id | id in t'.logFiles && t'.logFiles[id].serverId != server
      ensures id in t.logFiles && t'.logFiles[id] == t.logFiles[id]
    {
      assert id in t.logFiles || IsNewFile(t, server, found, t'.logFiles[id]);
      assert RowTreated(t, t', server, found, Settled, id);
    }
  }

  lemma {:induction false} TakenPathHasOneRow(t: Tables, server: string, path: string)
    requires Consistent(t) && PathTaken(t, server, path)
    ensures HasOneRow(t, server, path)
  {
    var f := PathOwner(t, server, path);
    assert OnlyRowAt(t, server, path, f.id);
  }

  /** What a successful sync leaves: the server's log files are active exactly where discovery saw them, one correctly
      typed row per discovered path, nothing lost, other servers and all other tables untouched. */
  lemma {:induction false} SyncIsExact(t: Tables, t': Tables, server: string, found: seq<DiscoveredLog>)
    requires Consistent(t') && Reconciled(t, t', server, found, Settled)
    ensures ActiveIffDiscovered(t', server, found) && OneRowPerPath(t', server, found)
    ensures NothingLost(t, t') && OtherServersKept(t, t', server) && OnlyFilesDiffer(t, t')
    ensures AddedRowsAreFresh(t, t', server, found) && UndiscoveredKeepType(t, t', found)
  {
    SyncKeepsRows(t, t', server, found);
    SyncedRowsAreFresh(t, t', server, found);
    forall id | id in t'.logFiles && t'.logFiles[id].serverId == server
      ensures t'.logFiles[id].isActive <==> Mentions(found, t'.logFiles[id].path)
      ensures t'.logFiles[id].isActive ==> t'.logFiles[id].logType == LastType(found, t'.logFiles[id].path)
    {
      SyncedRow(t, t', server, found, id);
    }
    forall i | 0 <= i < |found| ensures HasOneRow(t', server, found[i].path) {
      TakenPathHasOneRow(t', server, found[i].path);
    }
  }

  lemma {:induction false} LastTypeOfUnique(found: seq<DiscoveredLog>, i: nat)
    requires DistinctPaths(found) && i < |found|
    ensures LastType(found, found[i].path) == found[i].logType
  {
    if i < |found| - 1 {
      LastTypeOfUnique(found[..|found| - 1], i);
    }
  }

  /** With unique paths, as the output parser produces them, a sync leaves nothing for an identical second one to do. */
  lemma {:induction false} SyncIsIdempotent(t: Tables, t': Tables, server: string, found: seq<DiscoveredLog>)
    requires Consistent(t') && Reconciled(t, t', server, found, Settled) && DistinctPaths(found)
    ensures Synced(t', server, found)
  {
    forall i | 0 <= i < |found| ensures RowIsRight(t', server, found[i]) {
      var f := PathOwner(t', server, found[i].path);
      assert OnlyRowAt(t', server, found[i].path, f.id);
      assert Mentions(found, found[i].path);
      SyncedRow(t, t', server, found, f.id);
      LastTypeOfUnique(found, i);
    }
    forall id | id in t'.logFiles && t'.logFiles[id].serverId == server && !Mentions(found, t'.logFiles[id].path)
      ensures !t'.logFiles[id].isActive
    {
      SyncedRow(t, t', server, found, id);
    }
  }

  /** With unique paths and an existing server every sync succeeds. A path repeated in the input makes it fail exactly
      when the path is new. */
  lemma {:induction false} UniquePathsAreCreatable(t: Tables, server: string, found: seq<DiscoveredLog>)
    requires server in t.servers
    ensures DistinctPaths(found) ==> AllCreatable(t, server, found, |found|)
    ensures AllCreatable(t, server, found, |found|) <==>
              forall i, j :: 0 <= i < j < |found| && found[i].path == found[j].path ==>
                PathTaken(t, server, found[j].path)
  {
    if AllCreatable(t, server, found, |found|) {
      forall i, j | 0 <= i < j < |found| && found[i].path == found[j].path ensures PathTaken(t, server, found[j].path) {
        assert Creatable(t, server, found, j);
        assert found[..j][i].path == found[j].path;
      }
    }
    if forall i, j :: 0 <= i < j < |found| && found[i].path == found[j].path ==> PathTaken(t, server, found[j].path) {
      forall j | 0 <= j < |found| ensures Creatable(t, server, found, j) {
        if i :| 0 <= i < |found[..j]| && found[..j][i].path == found[j].path {
          assert found[i].path == found[j].path;
        }
      }
    }
  }
}

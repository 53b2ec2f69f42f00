/** The domain records kept by the monitor. Timestamps and raw connection settings are not part of the model
    unless a decision depends on them. */
module Models {
  import opened Prelude

  /** A status may be left unset when a server is created. */
  datatype ServerStatus = ServerActive | ServerDegraded | ServerInactive | ServerError | UnsetStatus

  const MANAGED_BY_API := "api"

  datatype Server = Server(
    id: string, name: string, host: string, status: ServerStatus, managedBy: string,
    successCount: int, failureCount: int, lastError: string,
    lastSeenAt: Option<int>, backoffUntil: Option<int>)

  datatype LogType = Syslog | Auth | Nginx | Apache | EventLog | Kernel | App | UnknownType

  datatype FileIdentity = FileIdentity(
    deviceId: string, inode: string, volumeId: string, fileId: string, eventLog: string,
    sizeBytes: int, modTimeUnix: int)

  const NO_IDENTITY := FileIdentity("", "", "", "", "", 0, 0)

  datatype LogFile = LogFile(
    id: string, serverId: string, path: string, logType: LogType, identity: FileIdentity,
    scanned: bool, lastLineNumber: int, isActive: bool)

  /** One collected line. An entry that was not stored yet has the empty id. */
  datatype LogEntry = LogEntry(id: string, logFileId: string, lineNumber: int, content: string, hash: string)

  /** An aggregate hash over consecutive collected lines. */
  datatype LogChunk = LogChunk(
    id: string, logFileId: string, chunkNumber: int, fromLine: int, toLine: int,
    entriesCount: int, hash: string, hashAlgorithm: string)

  datatype CheckStatus = CheckOk | CheckTampered | CheckError

  datatype CheckResult = CheckResult(
    id: string, logFileId: string, status: CheckStatus, totalLines: int, tamperedLines: int, errorMessage: string)

  datatype TamperedEntry = TamperedEntry(
    lineNumber: int, storedHash: string, currentHash: string, currentContent: string)

  /** One numbered line read from a remote log. */
  datatype Line = Line(number: int, content: string)
}

/** An integrity check cut into its repository calls: one turn after the other it computes the check as a whole. */
module CheckSteps {
  import opened Prelude
  import opened Models
  import opened Hashing
  import opened Collector
  import opened Integrity
  import opened FastPath
  import opened EndToEnd
  import Sorting

  /** What one check meets: hash functions, the identity in the caller's copy of the log file, the inspected identity
      and the remote lines, each if it could be read. */
  datatype Inquiry = Inquiry(h: Hasher, copy: FileIdentity, inspected: Option<FileIdentity>, now: Option<seq<Line>>)

  /** What a check does at its next turn: compare identities and index the remote lines; count the stored rows; list the
      chunks; then compare all rows, or scan the next chunk and at the end compare the rows no chunk covers; and record
      the report. */
  datatype CheckPhase =
    | Inspecting
    | Counting(current: map<int, string>)
    | Listing(current: map<int, string>, total: nat)
    | ComparingAll(current: map<int, string>, total: nat)
    | Scanning(current: map<int, string>, total: nat, chunks: seq<LogChunk>, scan: Scan)
    | ComparingRest(current: map<int, string>, total: nat, scan: Scan)
    | Recording(report: CheckReport)
    | Recorded(report: CheckReport, row: CheckResult)

  function Verdict(total: nat, tampered: seq<TamperedEntry>): CheckReport {
    Compared(if tampered == [] then CheckOk else CheckTampered, total, tampered)
  }

  /** One turn. A check changes no row of the log file. */
  function CheckTurn(q: Inquiry, fs: FileStore, phase: CheckPhase): CheckPhase
    requires !phase.Recording? && !phase.Recorded?
  {
    match phase
    case Inspecting =>
      if q.inspected.Some? && ShouldReset(q.copy, q.inspected.value) then Recording(SourceReplaced)
      else if q.now.None? then Recording(SourceUnreadable)
      else Counting(ContentByLine(q.now.value))
    case Counting(current) => Listing(current, |fs.entries|)
    case Listing(current, total) =>
      if fs.chunks == [] then ComparingAll(current, total)
      else Scanning(current, total, Sorting.Sort(fs.chunks, StartsBefore), Scan([], {}))
    case ComparingAll(current, total) => Recording(Verdict(total, CompareStored(q.h, fs.entries, current)))
    case Scanning(current, total, chunks, scan) =>
      if chunks != [] then
        Scanning(current, total, chunks[1..], ScanChunk(q.h, fs.entries, current, scan, chunks[0]))
      else if |scan.covered| < |fs.entries| then ComparingRest(current, total, scan)
      else Recording(Verdict(total, scan.tampered))
    case ComparingRest(current, total, scan) =>
      var items := CompareStored(q.h, Uncovered(fs.entries, scan.covered), current);
      Recording(Verdict(total, AppendUnique(scan.tampered, items)))
  }

  // ---- What the remaining turns will come to ----

  function ScanRest(h: Hasher, entries: seq<LogEntry>, current: map<int, string>, scan: Scan,
                    chunks: seq<LogChunk>): Scan
    decreases |chunks|
  {
    if chunks == [] then scan
    else ScanRest(h, entries, current, ScanChunk(h, entries, current, scan, chunks[0]), chunks[1..])
  }

  function Scanned(h: Hasher, entries: seq<LogEntry>, current: map<int, string>, scan: Scan): seq<TamperedEntry> {
    if |scan.covered| < |entries|
    then AppendUnique(scan.tampered, CompareStored(h, Uncovered(entries, scan.covered), current))
    else scan.tampered
  }

  function CheckRest(q: Inquiry, fs: FileStore, phase: CheckPhase): CheckReport {
    match phase
    case Inspecting => Check(q.h, fs.(identity := q.copy), q.inspected, q.now)
    case Counting(current) => Verdict(|fs.entries|, FindTampered(q.h, fs.entries, fs.chunks, current))
    case Listing(current, total) => Verdict(total, FindTampered(q.h, fs.entries, fs.chunks, current))
    case ComparingAll(current, total) => Verdict(total, CompareStored(q.h, fs.entries, current))
    case Scanning(current, total, chunks, scan) =>
      Verdict(total, Scanned(q.h, fs.entries, current, ScanRest(q.h, fs.entries, current, scan, chunks)))
    case ComparingRest(current, total, scan) =>
      Verdict(total, AppendUnique(scan.tampered, CompareStored(q.h, Uncovered(fs.entries, scan.covered), current)))
    case Recording(report) => report
    case Recorded(report, _) => report
  }

  /** Scanning on from the front of the list is scanning the whole list. */
  lemma {:induction false} ScanRestIsScan(h: Hasher, entries: seq<LogEntry>, current: map<int, string>,
                                          chunks: seq<LogChunk>, i: nat)
    requires i <= |chunks|
    ensures ScanRest(h, entries, current, ScanChunks(h, entries, current, chunks[..i]), chunks[i..]) ==
              ScanChunks(h, entries, current, chunks)
    decreases |chunks| - i
  {
    if i < |chunks| {
      assert chunks[i..][0] == chunks[i] && chunks[i..][1..] == chunks[i + 1..];
      assert chunks[..i + 1][..i] == chunks[..i] && chunks[..i + 1][i] == chunks[i];
      ScanRestIsScan(h, entries, current, chunks, i + 1);
    } else {
      assert chunks[..i] == chunks && chunks[i..] == [];
    }
  }

  lemma {:induction false} ScanFromStart(h: Hasher, entries: seq<LogEntry>, current: map<int, string>,
                                         chunks: seq<LogChunk>)
    ensures ScanRest(h, entries, current, Scan([], {}), chunks) == ScanChunks(h, entries, current, chunks)
  {
    ScanRestIsScan(h, entries, current, chunks, 0);
    assert chunks[..0] == [] && chunks[0..] == chunks;
    assert ScanChunks(h, entries, current, []) == Scan([], {});
  }

  lemma {:induction false} ListingTurn(q: Inquiry, fs: FileStore, current: map<int, string>, total: nat)
    requires fs.chunks != []
    ensures var sorted := Sorting.Sort(fs.chunks, StartsBefore);
            Scanned(q.h, fs.entries, current, ScanRest(q.h, fs.entries, current, Scan([], {}), sorted)) ==
              FindTampered(q.h, fs.entries, fs.chunks, current)
  {
    ScanFromStart(q.h, fs.entries, current, Sorting.Sort(fs.chunks, StartsBefore));
  }

  lemma {:induction false} InspectingTurn(q: Inquiry, fs: FileStore)
    ensures CheckRest(q, fs, CheckTurn(q, fs, Inspecting)) == CheckRest(q, fs, Inspecting)
  {
  }

  lemma {:induction false} ScanningTurn(q: Inquiry, fs: FileStore, current: map<int, string>, total: nat,
                                        chunks: seq<LogChunk>, scan: Scan)
    ensures var phase := Scanning(current, total, chunks, scan);
            CheckRest(q, fs, CheckTurn(q, fs, phase)) == CheckRest(q, fs, phase)
  {
  }

  lemma {:induction false} ComparingTurns(q: Inquiry, fs: FileStore, phase: CheckPhase)
    requires phase.Counting? || phase.ComparingAll? || phase.ComparingRest?
    ensures CheckRest(q, fs, CheckTurn(q, fs, phase)) == CheckRest(q, fs, phase)
  {
  }

  lemma {:induction false} ListingKeepsRest(q: Inquiry, fs: FileStore, current: map<int, string>, total: nat)
    ensures CheckRest(q, fs, CheckTurn(q, fs, Listing(current, total))) == CheckRest(q, fs, Listing(current, total))
  {
    var phase := CheckTurn(q, fs, Listing(current, total));
    if fs.chunks == [] {
      assert phase == ComparingAll(current, total);
    } else {
      assert phase == Scanning(current, total, Sorting.Sort(fs.chunks, StartsBefore), Scan([], {}));
      ListingTurn(q, fs, current, total);
    }
  }

  lemma {:induction false} ScanEnds(q: Inquiry, fs: FileStore, current: map<int, string>, total: nat, scan: Scan)
    ensures CheckTurn(q, fs, Scanning(current, total, [], scan)) ==
              if |scan.covered| < |fs.entries| then ComparingRest(current, total, scan)
              else Recording(Verdict(total, scan.tampered))
  {
  }

  /** A turn does not change what the check will report. */
  lemma {:induction false} CheckTurnKeepsRest(q: Inquiry, fs: FileStore, phase: CheckPhase)
    requires !phase.Recording? && !phase.Recorded?
    ensures CheckRest(q, fs, CheckTurn(q, fs, phase)) == CheckRest(q, fs, phase)
  {
    match phase
    case Inspecting => InspectingTurn(q, fs);
    case Listing(current, total) => ListingKeepsRest(q, fs, current, total);
    case Scanning(current, total, chunks, scan) => ScanningTurn(q, fs, current, total, chunks, scan);
    case _ => ComparingTurns(q, fs, phase);
  }

  // ---- How many turns are left ----

  function CheckTurnsLeft(fs: FileStore, phase: CheckPhase): nat {
    match phase
    case Inspecting => 6 + |fs.chunks|
    case Counting(_) => 5 + |fs.chunks|
    case Listing(_, _) => 4 + |fs.chunks|
    case ComparingAll(_, _) => 2
    case Scanning(_, _, chunks, _) => 3 + |chunks|
    case ComparingRest(_, _, _) => 2
    case Recording(_) => 1
    case Recorded(_, _) => 0
  }

  lemma {:induction false} CheckTurnCounts(q: Inquiry, fs: FileStore, phase: CheckPhase)
    requires !phase.Recording? && !phase.Recorded?
    ensures CheckTurnsLeft(fs, CheckTurn(q, fs, phase)) < CheckTurnsLeft(fs, phase)
  {
    SortKeepsLength(fs.chunks);
  }

  lemma {:induction false} SortKeepsLength(chunks: seq<LogChunk>)
    ensures |Sorting.Sort(chunks, StartsBefore)| == |chunks|
  {
    Sorting.SortKeepsElements(chunks, StartsBefore);
    var sorted := Sorting.Sort(chunks, StartsBefore);
    assert |sorted| == |multiset(sorted)| == |multiset(chunks)| == |chunks|;
  }
}

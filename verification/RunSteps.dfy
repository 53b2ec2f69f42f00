/** A collection run cut into its repository calls: one turn after the other it computes the run as a whole. */
module RunSteps {
  import opened Prelude
  import opened Models
  import opened Chunking
  import opened Batches
  import opened Collector
  import opened StoreFacts

  /** What a run does at its next turn: look up where to start and read; delete the old entries; delete the old chunks;
      plan its batches after the latest chunk; save the next batch or, if none is left, update the log file row. */
  datatype Phase =
    | Beginning
    | ClearingEntries(lines: seq<Line>)
    | ClearingChunks(lines: seq<Line>)
    | Planning(lines: seq<Line>, start: int)
    | Saving(lines: seq<Line>, batches: seq<Batch>, left: nat, added: nat)
    | Over(outcome: Outcome<nat>)

  datatype Progress = Progress(phase: Phase, fs: FileStore)

  function Identified(fs: FileStore, c: Circumstances): FileStore {
    fs.(identity := if c.inspected.Some? then c.inspected.value else fs.identity)
  }

  function PlanFor(cfg: Config, chunks: seq<LogChunk>, lines: seq<Line>, start: int): seq<Batch>
    requires ValidConfig(cfg)
  {
    BatchesFor(cfg, NewEntries(cfg, lines, start), NextChunkNumber(chunks))
  }

  /** One turn. */
  ghost function Turn(cfg: Config, c: Circumstances, p: Progress): Progress
    requires ValidConfig(cfg)
  {
    match p.phase
    case Beginning =>
      var start := StartLine(p.fs, c);
      (match c.read(start)
       case None => p.(phase := Over(Failure(Unavailable)))
       case Some(lines) => p.(phase := if Resets(p.fs, c) then ClearingEntries(lines) else Planning(lines, start)))
    case ClearingEntries(lines) => Progress(ClearingChunks(lines), p.fs.(entries := []))
    case ClearingChunks(lines) => Progress(Planning(lines, 0), p.fs.(chunks := []))
    case Planning(lines, start) =>
      p.(phase := Saving(lines, PlanFor(cfg, p.fs.chunks, lines, start), c.budget, |NewEntries(cfg, lines, start)|))
    case Saving(lines, batches, left, added) =>
      if left == 0 then p.(phase := Over(Failure(Unavailable)))
      else if batches == [] then Progress(Over(Success(added)), Identified(p.fs, c))
      else
        (match SaveBatch(p.fs, batches[0])
         case None => p.(phase := Over(Failure(Unavailable)))
         case Some(next) => Progress(Saving(lines, batches[1..], left - 1, added), next))
    case Over(_) => p
  }

  // ---- What the remaining turns will come to ----

  ghost function Concluded(c: Circumstances, fs: FileStore, batches: seq<Batch>, left: nat, added: nat): RunResult {
    var saved := SaveAll(fs, batches, left);
    if !saved.complete || left <= |batches| then RunResult(saved.fs, Failure(Unavailable))
    else RunResult(Identified(saved.fs, c), Success(added))
  }

  ghost function Planned(cfg: Config, c: Circumstances, fs: FileStore, lines: seq<Line>, start: int): RunResult
    requires ValidConfig(cfg)
  {
    Concluded(c, fs, PlanFor(cfg, fs.chunks, lines, start), c.budget, |NewEntries(cfg, lines, start)|)
  }

  ghost function Rest(cfg: Config, c: Circumstances, p: Progress): RunResult
    requires ValidConfig(cfg)
  {
    match p.phase
    case Beginning => Collect(cfg, p.fs, c)
    case ClearingEntries(lines) => Planned(cfg, c, p.fs.(entries := [], chunks := []), lines, 0)
    case ClearingChunks(lines) => Planned(cfg, c, p.fs.(chunks := []), lines, 0)
    case Planning(lines, start) => Planned(cfg, c, p.fs, lines, start)
    case Saving(_, batches, left, added) => Concluded(c, p.fs, batches, left, added)
    case Over(outcome) => RunResult(p.fs, outcome)
  }

  lemma {:induction false} CollectIsPlanned(cfg: Config, c: Circumstances, fs: FileStore)
    requires ValidConfig(cfg) && c.read(StartLine(fs, c)).Some?
    ensures Collect(cfg, fs, c) ==
              Planned(cfg, c, BaseStore(fs, c), c.read(StartLine(fs, c)).value, StartLine(fs, c))
  {
    var base, start := BaseStore(fs, c), StartLine(fs, c);
    var batches := PlanFor(cfg, base.chunks, c.read(start).value, start);
    SaveAllKeepsIdentity(base, batches, c.budget);
  }

  lemma {:induction false} SavingTurn(c: Circumstances, fs: FileStore, batches: seq<Batch>, left: nat, added: nat)
    requires left > 0 && batches != [] && SaveBatch(fs, batches[0]).Some?
    ensures Concluded(c, fs, batches, left, added) ==
              Concluded(c, SaveBatch(fs, batches[0]).value, batches[1..], left - 1, added)
  {
  }

  /** A turn does not change what the run will come to. */
  lemma {:induction false} TurnKeepsRest(cfg: Config, c: Circumstances, p: Progress)
    requires ValidConfig(cfg)
    ensures Rest(cfg, c, Turn(cfg, c, p)) == Rest(cfg, c, p)
  {
    match p.phase
    case Beginning =>
      if c.read(StartLine(p.fs, c)).Some? {
        CollectIsPlanned(cfg, c, p.fs);
      }
    case ClearingEntries(_) =>
    case ClearingChunks(_) =>
    case Planning(_, _) =>
    case Saving(_, batches, left, added) =>
      if left > 0 && batches != [] && SaveBatch(p.fs, batches[0]).Some? {
        SavingTurn(c, p.fs, batches, left, added);
      }
    case Over(_) =>
  }

  // ---- How many turns are left ----

  ghost function TurnsLeft(cfg: Config, c: Circumstances, p: Progress): nat
    requires ValidConfig(cfg)
  {
    match p.phase
    case Beginning =>
      var start := StartLine(p.fs, c);
      (match c.read(start)
       case None => 1
       case Some(lines) => (if Resets(p.fs, c) then 5 else 3) + |PlanFor(cfg, BaseStore(p.fs, c).chunks, lines, start)|)
    case ClearingEntries(lines) => 4 + |PlanFor(cfg, [], lines, 0)|
    case ClearingChunks(lines) => 3 + |PlanFor(cfg, [], lines, 0)|
    case Planning(lines, start) => 2 + |PlanFor(cfg, p.fs.chunks, lines, start)|
    case Saving(_, batches, _, _) => 1 + |batches|
    case Over(_) => 0
  }

  lemma {:induction false} TurnCounts(cfg: Config, c: Circumstances, p: Progress)
    requires ValidConfig(cfg) && !p.phase.Over?
    ensures TurnsLeft(cfg, c, Turn(cfg, c, p)) < TurnsLeft(cfg, c, p)
  {
  }
}

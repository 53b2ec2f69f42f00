/** Files that are rotated, or truncated and rewritten in place: when the collector notices, and what it stores. */
module Replacements {
  import opened Prelude
  import opened Models
  import opened Hashing
  import opened Text
  import opened Chunking
  import opened Batches
  import opened Collector
  import opened StoreFacts
  import opened FileReadings
  import opened RemoteFile

  // ---- Noticing a replacement ----

  /** Identities of Unix files: device and inode are known. */
  predicate UnixIdentity(i: FileIdentity) {
    i.deviceId != "" && i.inode != "" && i.eventLog == ""
  }

  function Key(i: FileIdentity): (string, string) {
    (i.deviceId, i.inode)
  }

  /** Another device/inode pair than the recorded one, or a size that is smaller than recorded but not zero. */
  predicate LooksReplaced(recorded: FileIdentity, inspected: FileIdentity) {
    Key(inspected) != Key(recorded) || 0 < inspected.sizeBytes < recorded.sizeBytes
  }

  /** Between two Unix identities rotation is detected exactly if the pair changed, or the size went down to something
      above zero: an emptied file is not detected. */
  lemma {:induction false} DetectionIff(recorded: FileIdentity, inspected: FileIdentity)
    requires UnixIdentity(recorded) && UnixIdentity(inspected)
    ensures ShouldReset(recorded, inspected) <==> LooksReplaced(recorded, inspected)
  {
  }

  /** Which key decides elsewhere: event logs by their name alone, other files by their file id and size when either
      side lacks the Unix pair; and a side that carries nothing at all is never taken for another file. */
  lemma {:induction false} OtherDetectionIff(recorded: FileIdentity, inspected: FileIdentity)
    ensures !HasIdentity(recorded) || !HasIdentity(inspected) ==> !ShouldReset(recorded, inspected)
    ensures HasIdentity(recorded) && HasIdentity(inspected) && (recorded.eventLog != "" || inspected.eventLog != "") ==>
              (ShouldReset(recorded, inspected) <==> recorded.eventLog != inspected.eventLog)
    ensures recorded.eventLog == inspected.eventLog == "" && recorded.fileId != "" && inspected.fileId != "" &&
            (recorded.deviceId == "" || recorded.inode == "" || inspected.deviceId == "" || inspected.inode == "") ==>
              (ShouldReset(recorded, inspected) <==>
                 recorded.fileId != inspected.fileId || 0 < inspected.sizeBytes < recorded.sizeBytes)
    ensures HasIdentity(recorded) <==>
              recorded.(sizeBytes := Max(0, recorded.sizeBytes), modTimeUnix := 0) != NO_IDENTITY
  {
  }

  /** Nothing tells the two apart by name: device, inode and file id are the same, and neither is an event log. */
  predicate SameKeys(recorded: FileIdentity, inspected: FileIdentity) {
    inspected.deviceId == recorded.deviceId && inspected.inode == recorded.inode &&
      inspected.fileId == recorded.fileId &&
    recorded.eventLog == "" && inspected.eventLog == ""
  }

  /** Then only a smaller size above zero tells, on every operating system. */
  lemma {:induction false} ShrinkDetectionIff(recorded: FileIdentity, inspected: FileIdentity)
    requires SameKeys(recorded, inspected)
    ensures ShouldReset(recorded, inspected) <==> 0 < inspected.sizeBytes < recorded.sizeBytes
  {
  }

  // ---- One run over a replaced file ----

  /** Exactly when all rows after a completed run are rows of the file it read: rotation was detected, or the rows it
      found were readings of this very file already. */
  lemma {:induction false} CompletedRunIsUnmixedIff(cfg: Config, fs: FileStore, inspected: Option<FileIdentity>,
                                                    content: seq<string>, budget: nat)
    requires ValidConfig(cfg) && StrictlyAscending(fs.entries)
    requires Collect(cfg, fs, Circumstances(inspected, Reader(content, true), budget)).outcome.Success?
    ensures var c := Circumstances(inspected, Reader(content, true), budget);
            HoldsReadings(cfg, Collect(cfg, fs, c).fs, content) <==> Resets(fs, c) || HoldsReadings(cfg, fs, content)
  {
    var c := Circumstances(inspected, Reader(content, true), budget);
    var base, after := BaseStore(fs, c), Collect(cfg, fs, c).fs;
    var m := RunOnFile(cfg, fs, inspected, content, budget);
    if Resets(fs, c) || HoldsReadings(cfg, fs, content) {
      assert Readings(cfg, [], content, map[]);
      var tails :| Readings(cfg, base.entries, content, tails);
      ReadingsAscend(cfg, base.entries, content, tails);
      ReadOn(cfg, base.entries, content, tails, m);
    }
    if !Resets(fs, c) && HoldsReadings(cfg, after, content) {
      var tails :| Readings(cfg, after.entries, content, tails);
      ReadingsPrefix(cfg, after.entries, content, tails, |fs.entries|);
      assert after.entries[..|fs.entries|] == fs.entries;
    }
  }

  /** A completed run over a file that was truncated in place or replaced under the same keys, and may have grown since.
      This is noticed exactly if the size it finds is smaller than the recorded one but not zero, and then exactly the
      file's rows are stored; otherwise the old rows stay and the lines numbered above them are added. */
  lemma {:induction false} TruncationIsNoticedIff(cfg: Config, remote: Remote, events: seq<Event>)
    requires ValidConfig(cfg)
    requires var w := After(cfg, remote, events);
             w.pending.None? && SameKeys(w.fs.identity, w.remote.identity)
    ensures var w := After(cfg, remote, events);
            RunNow(cfg, w).fs.entries ==
              if 0 < w.remote.identity.sizeBytes < w.fs.identity.sizeBytes then FileRows(cfg, w.remote.content)
              else w.fs.entries + RowsAbove(cfg, w.remote.content, MaxLine(w.fs.entries))
  {
    var w := After(cfg, remote, events);
    HistoriesAreSound(cfg, remote, events);
    WellGroupedAscends(cfg, w.fs);
    ShrinkDetectionIff(w.fs.identity, w.remote.identity);
    RunNowIs(cfg, w);
    assert [] + FileRows(cfg, w.remote.content) == FileRows(cfg, w.remote.content);
  }

  // ---- Whole histories ----

  /** A run that reads its lines while rows of a replaced file are stored has noticed: the guard on the identity
      recorded with these rows and the one it inspected before the read holds. Anything else is free: when the file is
      replaced and with what, how it grows, which inspections and reads fail, and where runs stop. */
  predicate NoticesReplacements(w: World, e: Event) {
    e.Read? && e.readable && w.stale && w.pending.Some? ==>
      w.pending.value.Some? && ShouldReset(w.fs.identity, w.pending.value.value)
  }

  ghost predicate HoldsOneVersion(cfg: Config, w: World) {
    exists v :: v in w.versions && HoldsReadings(cfg, w.fs, v)
  }

  lemma {:induction false} CurrentVersion(cfg: Config, w: World)
    requires Sound(cfg, w) && !w.stale
    ensures HoldsOneVersion(cfg, w)
  {
    assert HoldsReadings(cfg, w.fs, w.remote.content);
  }

  lemma {:induction false} NoticingKeepsOneVersion(cfg: Config, w: World, e: Event)
    requires ValidConfig(cfg) && Sound(cfg, w) && HoldsOneVersion(cfg, w) && NoticesReplacements(w, e)
    ensures HoldsOneVersion(cfg, Step(cfg, w, e))
  {
    var w' := Step(cfg, w, e);
    StepKeepsSound(cfg, w, e);
    if w'.stale {
      assert w'.fs.entries == w.fs.entries;
      var v :| v in w.versions && HoldsReadings(cfg, w.fs, v);
      assert v in w'.versions && HoldsReadings(cfg, w'.fs, v);
    } else {
      CurrentVersion(cfg, w');
    }
  }

  /** Rows of two files are never mixed, over any history in which each read over a replaced file has noticed the
      replacement; this includes resets that failed half-way before. */
  lemma {:induction false} ReplacementsNeverMix(cfg: Config, remote: Remote, events: seq<Event>)
    requires ValidConfig(cfg) && Follows(cfg, remote, events, NoticesReplacements)
    ensures HoldsOneVersion(cfg, After(cfg, remote, events))
  {
    HistoriesAreSound(cfg, remote, events);
    if events == [] {
      CurrentVersion(cfg, Start(remote));
    } else {
      var front := events[..|events| - 1];
      HistoriesAreSound(cfg, remote, front);
      ReplacementsNeverMix(cfg, remote, front);
      NoticingKeepsOneVersion(cfg, After(cfg, remote, front), events[|events| - 1]);
    }
  }

  /** One run is enough: after a read that noticed the replacement the rows are readings of the present file, and if the
      run completed there is one for each of its lines. */
  lemma {:induction false} NoticedReplacementIsRecollected(cfg: Config, remote: Remote, events: seq<Event>, budget: nat)
    requires ValidConfig(cfg)
    requires var w := After(cfg, remote, events);
             w.pending.Some? && NoticesReplacements(w, Read(true, budget))
    ensures var w := After(cfg, remote, events);
            var w' := AfterRead(cfg, w, budget);
            !w'.stale && Readings(cfg, w'.fs.entries, w.remote.content, w'.tails) &&
            (ReadResult(cfg, w, true, budget).outcome.Success? ==> |w'.fs.entries| == |w.remote.content|)
  {
    var w := After(cfg, remote, events);
    HistoriesAreSound(cfg, remote, events);
    ReadKeepsReadings(cfg, w, budget);
    WellGroupedAscends(cfg, w.fs);
    var m := RunOnFile(cfg, w.fs, w.pending.value, w.remote.content, budget);
    if !Resets(w.fs, ReadCircumstances(w, true, budget)) {
      ReadingsAscend(cfg, w.fs.entries, w.remote.content, w.tails);
    }
  }

  // ---- Replacements that go unnoticed ----

  predicate AnyEvent(w: World, e: Event) {
    true
  }

  /** The first line of the old file followed by the second line of the new one. */
  ghost predicate Mixed(cfg: Config, w: World) {
    w.fs.entries == FileRows(cfg, ["a"]) + RowsAbove(cfg, ["x", "y"], 1)
  }

  ghost predicate TellsApart(h: Hasher) {
    h.line("a") != h.line("x") && h.line("a") != h.line("")
  }

  lemma {:induction false} MixedIsNoVersion(cfg: Config, w: World, v: seq<string>)
    requires TellsApart(cfg.hasher) && Mixed(cfg, w) && (|v| < 2 || v == ["x", "y"])
    ensures !HoldsReadings(cfg, w.fs, v)
  {
    assert |w.fs.entries| == 2 && w.fs.entries[0] == EntryFor(cfg, Line(1, "a")) by {
      assert w.fs.entries[0] == FileRows(cfg, ["a"])[0];
      assert SeenLine(["a"], 0) == "a";
    }
    forall tails ensures !Readings(cfg, w.fs.entries, v, tails) {
      if Readings(cfg, w.fs.entries, v, tails) {
        assert ReadingAt(cfg, w.fs.entries, v, tails, 0);
        assert w.fs.entries[0].hash == cfg.hasher.line(StoredAs(v, tails, 1));
        StartsOfX(tails, v);
      }
    }
  }

  ghost predicate ShortVersions(w: World) {
    forall v :: v in w.versions ==> |v| < 2 || v == ["x", "y"]
  }

  lemma {:induction false} MixedHoldsNoVersion(cfg: Config, w: World)
    requires TellsApart(cfg.hasher) && Mixed(cfg, w) && ShortVersions(w)
    ensures !HoldsOneVersion(cfg, w)
  {
    forall v | v in w.versions ensures !HoldsReadings(cfg, w.fs, v) {
      MixedIsNoVersion(cfg, w, v);
    }
  }

  lemma {:induction false} UnnoticedRunMixes(cfg: Config, w: World)
    requires ValidConfig(cfg) && TellsApart(cfg.hasher) && w.pending.None? && ShortVersions(w)
    requires w.fs.entries == FileRows(cfg, ["a"]) && w.remote.content == ["x", "y"]
    requires !ShouldReset(w.fs.identity, w.remote.identity)
    ensures Mixed(cfg, RunNow(cfg, w)) && !HoldsOneVersion(cfg, RunNow(cfg, w))
  {
    OneRow(cfg);
    RunNowIs(cfg, w);
    MixedHoldsNoVersion(cfg, RunNow(cfg, w));
  }

  lemma {:induction false} OneRow(cfg: Config)
    ensures StrictlyAscending(FileRows(cfg, ["a"])) && MaxLine(FileRows(cfg, ["a"])) == 1
  {
  }

  lemma {:induction false} StartsOfX(tails: map<int, string>, v: seq<string>)
    requires v == ["x", "y"] && (1 in tails ==> tails[1] <= "x")
    ensures StoredAs(v, tails, 1) == "x" || StoredAs(v, tails, 1) == ""
  {
    if 1 in tails {
      assert tails[1] == "x"[..|tails[1]|];
      assert tails[1] == "x" || tails[1] == "";
    }
  }

  /** A file of one line, collected once. */
  ghost function Collected(cfg: Config, identity: FileIdentity): World
    requires ValidConfig(cfg)
  {
    RunNow(cfg, Start(Remote(identity, ["a"])))
  }

  lemma {:induction false} CollectedIs(cfg: Config, identity: FileIdentity)
    requires ValidConfig(cfg)
    ensures var w := Collected(cfg, identity);
            w.fs.entries == FileRows(cfg, ["a"]) && w.fs.identity == identity && w.pending.None? &&
            w.remote == Remote(identity, ["a"]) && w.versions == {["a"]}
  {
    GrowthIsNotRotation(NO_IDENTITY, identity);
    RunNowIs(cfg, Start(Remote(identity, ["a"])));
    assert [] + FileRows(cfg, ["a"]) == FileRows(cfg, ["a"]);
  }

  ghost function RegrownFile(cfg: Config, identity: FileIdentity): World
    requires ValidConfig(cfg)
  {
    RunNow(cfg, Step(cfg, Collected(cfg, identity), Truncate(["x", "y"], identity.sizeBytes + 2, identity.modTimeUnix)))
  }

  /** A file that is truncated and has regrown to its recorded size before the next run is taken for the old one. */
  lemma {:induction false} RegrownFileMixes(cfg: Config, identity: FileIdentity) returns (events: seq<Event>)
    requires ValidConfig(cfg) && TellsApart(cfg.hasher)
    ensures After(cfg, Remote(identity, ["a"]), events) == RegrownFile(cfg, identity)
    ensures Mixed(cfg, RegrownFile(cfg, identity)) && !HoldsOneVersion(cfg, RegrownFile(cfg, identity))
  {
    RegrownFileIsMixed(cfg, identity);
    var remote := Remote(identity, ["a"]);
    var cut := Truncate(["x", "y"], identity.sizeBytes + 2, identity.modTimeUnix);
    var first := [] + RunEvents(EnoughFor(cfg, Start(remote)));
    var second := Step(cfg, Collected(cfg, identity), cut);
    events := first + [cut] + RunEvents(EnoughFor(cfg, second));
    AfterRunNow(cfg, remote, [], AnyEvent);
    AfterEvent(cfg, remote, first, cut, AnyEvent);
    AfterRunNow(cfg, remote, first + [cut], AnyEvent);
  }

  lemma {:induction false} RegrownFileIsMixed(cfg: Config, identity: FileIdentity)
    requires ValidConfig(cfg) && TellsApart(cfg.hasher)
    ensures Mixed(cfg, RegrownFile(cfg, identity)) && !HoldsOneVersion(cfg, RegrownFile(cfg, identity))
  {
    CollectedIs(cfg, identity);
    UnnoticedRunMixes(cfg, Step(cfg, Collected(cfg, identity),
                                Truncate(["x", "y"], identity.sizeBytes + 2, identity.modTimeUnix)));
  }

  /** Windows files are known by their path alone, so a rotated file keeps its key. */
  predicate WindowsIdentity(i: FileIdentity) {
    i.deviceId == "" && i.inode == "" && i.eventLog == "" && i.fileId != ""
  }

  /** What a rotation at the same path changes. */
  function AtSamePath(i: FileIdentity, size: int, modTime: int): FileIdentity {
    i.(sizeBytes := size, modTimeUnix := modTime)
  }

  ghost function RotatedAtPath(cfg: Config, identity: FileIdentity, size: int, modTime: int): World
    requires ValidConfig(cfg)
  {
    RunNow(cfg, Step(cfg, Collected(cfg, identity), Rotate(AtSamePath(identity, size, modTime), ["x", "y"])))
  }

  /** Such a rotation goes unnoticed exactly unless the new file is smaller than the old one and not empty. */
  lemma {:induction false} WindowsRotationMixesIff(cfg: Config, identity: FileIdentity, size: int, modTime: int)
    returns (events: seq<Event>)
    requires ValidConfig(cfg) && TellsApart(cfg.hasher) && WindowsIdentity(identity)
    ensures After(cfg, Remote(identity, ["a"]), events) == RotatedAtPath(cfg, identity, size, modTime)
    ensures var w := RotatedAtPath(cfg, identity, size, modTime);
            if 0 < size < identity.sizeBytes then HoldsOneVersion(cfg, w) && !Mixed(cfg, w)
            else Mixed(cfg, w) && !HoldsOneVersion(cfg, w)
  {
    var remote, swap := Remote(identity, ["a"]), Rotate(AtSamePath(identity, size, modTime), ["x", "y"]);
    var first := [] + RunEvents(EnoughFor(cfg, Start(remote)));
    AfterRunNow(cfg, remote, [], AnyEvent);
    AfterEvent(cfg, remote, first, swap, AnyEvent);
    AfterRunNow(cfg, remote, first + [swap], AnyEvent);
    events := first + [swap] + RunEvents(EnoughFor(cfg, After(cfg, remote, first + [swap])));
    CollectedIs(cfg, identity);
    SamePathRunIs(cfg, Step(cfg, Collected(cfg, identity), swap), size);
  }

  lemma {:induction false} SamePathRunIs(cfg: Config, w: World, size: int)
    requires ValidConfig(cfg) && TellsApart(cfg.hasher) && w.pending.None? && w.versions == {["a"], ["x", "y"]}
    requires w.fs.entries == FileRows(cfg, ["a"]) && w.remote.content == ["x", "y"]
    requires SameKeys(w.fs.identity, w.remote.identity) && w.remote.identity.sizeBytes == size
    ensures if 0 < size < w.fs.identity.sizeBytes then HoldsOneVersion(cfg, RunNow(cfg, w)) &&
            !Mixed(cfg, RunNow(cfg, w))
            else Mixed(cfg, RunNow(cfg, w)) && !HoldsOneVersion(cfg, RunNow(cfg, w))
  {
    ShrinkDetectionIff(w.fs.identity, w.remote.identity);
    if 0 < size < w.fs.identity.sizeBytes {
      RestartedRunIs(cfg, w);
    } else {
      UnnoticedRunMixes(cfg, w);
    }
  }

  lemma {:induction false} RestartedRunIs(cfg: Config, w: World)
    requires ValidConfig(cfg) && TellsApart(cfg.hasher) && w.pending.None? && ShortVersions(w)
    requires w.fs.entries == FileRows(cfg, ["a"]) && w.remote.content == ["x", "y"] && ["x", "y"] in w.versions
    requires ShouldReset(w.fs.identity, w.remote.identity)
    ensures HoldsOneVersion(cfg, RunNow(cfg, w)) && !Mixed(cfg, RunNow(cfg, w))
  {
    var w', rows := RunNow(cfg, w), FileRows(cfg, ["x", "y"]);
    OneRow(cfg);
    RunNowIs(cfg, w);
    assert w'.fs.entries == rows by {
      assert [] + rows == rows;
    }
    assert Readings(cfg, [], ["x", "y"], map[]);
    ReadOn(cfg, [], ["x", "y"], map[], 2);
    assert [] + rows[..2] == rows;
    assert HoldsReadings(cfg, w'.fs, ["x", "y"]);
    if Mixed(cfg, w') {
      MixedHoldsNoVersion(cfg, w');
    }
  }

  ghost function EmptiedFile(cfg: Config, identity: FileIdentity): World
    requires ValidConfig(cfg)
  {
    RunNow(cfg, Step(cfg, Collected(cfg, identity), Truncate([], 0, identity.modTimeUnix)))
  }

  ghost function RefilledFile(cfg: Config, identity: FileIdentity): World
    requires ValidConfig(cfg)
  {
    RunNow(cfg, Step(cfg, EmptiedFile(cfg, identity), Append("", ["x", "y"], 4, identity.modTimeUnix)))
  }

  lemma {:induction false} EmptyingIsNotNoticed(recorded: FileIdentity, modTime: int)
    ensures !ShouldReset(recorded, AtSamePath(recorded, 0, modTime))
  {
  }

  lemma {:induction false} EmptiedFileKeepsOldRows(cfg: Config, identity: FileIdentity)
    requires ValidConfig(cfg)
    ensures var w := EmptiedFile(cfg, identity);
            w.fs.entries == FileRows(cfg, ["a"]) && w.fs.identity.sizeBytes == 0 && w.pending.None? &&
            w.remote == Remote(identity.(sizeBytes := 0), []) && w.fs.identity == w.remote.identity &&
            w.versions == {["a"], []}
  {
    CollectedIs(cfg, identity);
    var cut := Step(cfg, Collected(cfg, identity), Truncate([], 0, identity.modTimeUnix));
    assert !ShouldReset(cut.fs.identity, cut.remote.identity) by {
      EmptyingIsNotNoticed(identity, identity.modTimeUnix);
    }
    OneRow(cfg);
    RunNowIs(cfg, cut);
    assert FileRows(cfg, ["a"]) + [] == FileRows(cfg, ["a"]);
  }

  /** A file that is emptied is not seen to shrink. A run that meets it empty records size zero, so no later size looks
      smaller, and what is written next is taken for the continuation of the old file. */
  lemma {:induction false} EmptiedFileMixes(cfg: Config, identity: FileIdentity) returns (events: seq<Event>)
    requires ValidConfig(cfg) && TellsApart(cfg.hasher)
    ensures After(cfg, Remote(identity, ["a"]), events) == RefilledFile(cfg, identity)
    ensures Mixed(cfg, RefilledFile(cfg, identity)) && !HoldsOneVersion(cfg, RefilledFile(cfg, identity))
  {
    var remote := Remote(identity, ["a"]);
    var cut, fill := Truncate([], 0, identity.modTimeUnix), Append("", ["x", "y"], 4, identity.modTimeUnix);
    var first := [] + RunEvents(EnoughFor(cfg, Start(remote)));
    AfterRunNow(cfg, remote, [], AnyEvent);
    AfterEvent(cfg, remote, first, cut, AnyEvent);
    var second := first + [cut] + RunEvents(EnoughFor(cfg, After(cfg, remote, first + [cut])));
    AfterRunNow(cfg, remote, first + [cut], AnyEvent);
    AfterEvent(cfg, remote, second, fill, AnyEvent);
    events := second + [fill] + RunEvents(EnoughFor(cfg, After(cfg, remote, second + [fill])));
    AfterRunNow(cfg, remote, second + [fill], AnyEvent);
    RefilledFileIsMixed(cfg, identity);
  }

  lemma {:induction false} RefilledFileIsMixed(cfg: Config, identity: FileIdentity)
    requires ValidConfig(cfg) && TellsApart(cfg.hasher)
    ensures Mixed(cfg, RefilledFile(cfg, identity)) && !HoldsOneVersion(cfg, RefilledFile(cfg, identity))
  {
    EmptiedFileKeepsOldRows(cfg, identity);
    RefillingMixes(cfg, EmptiedFile(cfg, identity), identity.modTimeUnix);
  }

  lemma {:induction false} RefillingMixes(cfg: Config, w: World, modTime: int)
    requires ValidConfig(cfg) && TellsApart(cfg.hasher) && w.pending.None? && w.versions == {["a"], []}
    requires w.fs.entries == FileRows(cfg, ["a"]) && w.remote.content == [] && w.remote.identity == w.fs.identity
    requires w.fs.identity.sizeBytes == 0
    ensures var w' := RunNow(cfg, Step(cfg, w, Append("", ["x", "y"], 4, modTime)));
            Mixed(cfg, w') && !HoldsOneVersion(cfg, w')
  {
    UnnoticedRunMixes(cfg, Step(cfg, w, Append("", ["x", "y"], 4, modTime)));
  }

  /** The world in which a run has inspected the old file and will read the new one. */
  ghost function Swapped(cfg: Config, identity: FileIdentity, other: FileIdentity): World
    requires ValidConfig(cfg)
  {
    Step(cfg, Step(cfg, Collected(cfg, identity), Inspect(true)), Rotate(other, ["x", "y"]))
  }

  ghost function EnoughForPending(cfg: Config, w: World): nat
    requires ValidConfig(cfg)
  {
    if w.pending.None? then 0 else 1 + BatchCount(cfg, w.fs, ReadCircumstances(w, true, 0))
  }

  lemma {:induction false} UnnoticedReadMixes(cfg: Config, w: World, budget: nat)
    requires ValidConfig(cfg) && TellsApart(cfg.hasher) && w.pending.Some? && ShortVersions(w)
    requires w.fs.entries == FileRows(cfg, ["a"]) && w.remote.content == ["x", "y"]
    requires !Resets(w.fs, ReadCircumstances(w, true, budget))
    requires BatchCount(cfg, w.fs, ReadCircumstances(w, true, budget)) < budget
    ensures Mixed(cfg, AfterRead(cfg, w, budget)) && !HoldsOneVersion(cfg, AfterRead(cfg, w, budget))
  {
    OneRow(cfg);
    var m := RunOnFile(cfg, w.fs, w.pending.value, w.remote.content, budget);
    MixedHoldsNoVersion(cfg, AfterRead(cfg, w, budget));
  }

  lemma {:induction false} ReadSteps(cfg: Config, w: World, budget: nat)
    requires ValidConfig(cfg) && w.pending.Some?
    ensures Step(cfg, w, Read(true, budget)) == AfterRead(cfg, w, budget)
  {
  }

  lemma {:induction false} SwappedIs(cfg: Config, identity: FileIdentity, other: FileIdentity)
    requires ValidConfig(cfg)
    ensures var w := Swapped(cfg, identity, other);
            w.pending == Some(Some(identity)) && w.fs.entries == FileRows(cfg, ["a"]) && w.fs.identity == identity &&
            w.remote.content == ["x", "y"] && ShortVersions(w)
  {
    CollectedIs(cfg, identity);
  }

  ghost function ReadAfterSwap(cfg: Config, identity: FileIdentity, other: FileIdentity): World
    requires ValidConfig(cfg)
  {
    var w := Swapped(cfg, identity, other);
    Step(cfg, w, Read(true, EnoughForPending(cfg, w)))
  }

  /** A file that is replaced between a run's identity inspection and its read goes unnoticed by that run. */
  lemma {:induction false} RotationDuringRunMixes(cfg: Config, identity: FileIdentity, other: FileIdentity)
    returns (events: seq<Event>)
    requires ValidConfig(cfg) && TellsApart(cfg.hasher)
    ensures After(cfg, Remote(identity, ["a"]), events) == ReadAfterSwap(cfg, identity, other)
    ensures Mixed(cfg, ReadAfterSwap(cfg, identity, other)) &&
            !HoldsOneVersion(cfg, ReadAfterSwap(cfg, identity, other))
  {
    SwappedFileIsMixed(cfg, identity, other);
    var swapped := SwapHistory(cfg, identity, other);
    var last := Read(true, EnoughForPending(cfg, Swapped(cfg, identity, other)));
    AfterEvent(cfg, Remote(identity, ["a"]), swapped, last, AnyEvent);
    events := swapped + [last];
  }

  lemma {:induction false} SwapHistory(cfg: Config, identity: FileIdentity, other: FileIdentity)
    returns (events: seq<Event>)
    requires ValidConfig(cfg)
    ensures After(cfg, Remote(identity, ["a"]), events) == Swapped(cfg, identity, other)
  {
    var remote, swap := Remote(identity, ["a"]), Rotate(other, ["x", "y"]);
    var first := [] + RunEvents(EnoughFor(cfg, Start(remote)));
    AfterRunNow(cfg, remote, [], AnyEvent);
    AfterEvent(cfg, remote, first, Inspect(true), AnyEvent);
    AfterEvent(cfg, remote, first + [Inspect(true)], swap, AnyEvent);
    events := first + [Inspect(true)] + [swap];
  }

  lemma {:induction false} SwappedFileIsMixed(cfg: Config, identity: FileIdentity, other: FileIdentity)
    requires ValidConfig(cfg) && TellsApart(cfg.hasher)
    ensures Mixed(cfg, ReadAfterSwap(cfg, identity, other)) &&
            !HoldsOneVersion(cfg, ReadAfterSwap(cfg, identity, other))
  {
    SwappedIs(cfg, identity, other);
    SameIdentityReadMixes(cfg, Swapped(cfg, identity, other), identity);
  }

  lemma {:induction false} SameIdentityReadMixes(cfg: Config, w: World, identity: FileIdentity)
    requires ValidConfig(cfg) && TellsApart(cfg.hasher) && ShortVersions(w)
    requires w.pending == Some(Some(identity)) && w.fs.identity == identity
    requires w.fs.entries == FileRows(cfg, ["a"]) && w.remote.content == ["x", "y"]
    ensures var w' := Step(cfg, w, Read(true, EnoughForPending(cfg, w)));
            Mixed(cfg, w') && !HoldsOneVersion(cfg, w')
  {
    var budget := EnoughForPending(cfg, w);
    assert !Resets(w.fs, ReadCircumstances(w, true, budget)) by {
      GrowthIsNotRotation(identity, identity);
    }
    BudgetDoesNotCount(cfg, w.fs, w.pending.value, w.remote.content, 0, budget);
    UnnoticedReadMixes(cfg, w, budget);
    ReadSteps(cfg, w, budget);
  }
}

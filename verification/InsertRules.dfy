/** The inserts that check each row against the tables alone: when a list of rows keeps the repository consistent, and
    how much of it is stored. */
module InsertRules {
  import opened Prelude
  import opened Models
  import opened Tables
  import opened BatchRules

  // ---- Entries: all or nothing, repetitions unseen ----

  /** Rows as stored: the given rows, with an id where they had none. */
  ghost predicate Completes(es: seq<LogEntry>, stored: seq<LogEntry>) {
    |stored| == |es| && forall i :: 0 <= i < |es| ==>
      stored[i] == es[i].(id := stored[i].id) && stored[i].id != "" && (es[i].id != "" ==> stored[i] == es[i])
  }

  lemma {:induction false} CompletesSnoc(es: seq<LogEntry>, stored: seq<LogEntry>, one: LogEntry)
    requires |stored| < |es| && Completes(es[..|stored|], stored)
    requires one == es[|stored|].(id := one.id) && one.id != "" && (es[|stored|].id != "" ==> one == es[|stored|])
    ensures Completes(es[..|stored| + 1], stored + [one])
  {
    var n := |stored|;
    forall i | 0 <= i < n ensures es[..n + 1][i] == es[..n][i] {
    }
  }

  ghost predicate IdIsNew(es: seq<LogEntry>, stored: seq<LogEntry>, i: nat)
    requires i < |stored| <= |es|
  {
    (forall j :: 0 <= j < i ==> stored[j].id != stored[i].id) &&
      (forall j :: 0 <= j < |es| ==> es[j].id != stored[i].id)
  }

  /** Generated ids are new to the list and to each other. */
  ghost predicate NewIds(es: seq<LogEntry>, stored: seq<LogEntry>) {
    |stored| <= |es| && forall i :: 0 <= i < |stored| && es[i].id == "" ==> IdIsNew(es, stored, i)
  }

  lemma {:induction false} NewIdsSnoc(t: Tables, es: seq<LogEntry>, stored: seq<LogEntry>, one: LogEntry)
    requires |stored| < |es| && NewIds(es, stored)
    requires es[|stored|].id == "" ==>
               one.id !in (set i | 0 <= i < |es| :: es[i].id) && one.id !in PutEntries(t, stored).entries
    ensures NewIds(es, stored + [one])
  {
    var n, more := |stored|, stored + [one];
    forall i | 0 <= i < |more| && es[i].id == "" ensures IdIsNew(es, more, i) {
      if i < n {
        assert IdIsNew(es, stored, i);
      } else {
        forall j | 0 <= j < n ensures stored[j].id != one.id {
          EntryAfter(t, stored, stored[j].id);
        }
      }
    }
  }

  /** An entry without an id is the last one for its line. An entry with an id is the last one with that id exactly if
      it is the last one for its line. */
  ghost predicate RepeatsHarmlessly(es: seq<LogEntry>, i: nat)
    requires i < |es|
  {
    var lastOnLine := LastOnLine(es, es[i].logFileId, es[i].lineNumber) == i;
    if es[i].id == "" then lastOnLine else LastWithId(es, es[i].id) == i <==> lastOnLine
  }

  ghost predicate AllRepeatHarmlessly(es: seq<LogEntry>) {
    forall i :: 0 <= i < |es| ==> RepeatsHarmlessly(es, i)
  }

  lemma {:induction false} LineOrderIsKept(es: seq<LogEntry>, stored: seq<LogEntry>, file: string, line: int)
    requires Completes(es, stored)
    ensures LastOnLine(stored, file, line) == LastOnLine(es, file, line)
  {
    if es != [] {
      var n := |es| - 1;
      assert stored[n] == es[n].(id := stored[n].id);
      LineOrderIsKept(es[..n], stored[..n], file, line);
    }
  }

  lemma {:induction false} GeneratedIdIsLast(es: seq<LogEntry>, stored: seq<LogEntry>, i: nat)
    requires Completes(es, stored) && NewIds(es, stored) && i < |es| && es[i].id == ""
    ensures LastWithId(stored, stored[i].id) == i
  {
    assert IdIsNew(es, stored, i);
    forall k | i < k < |es| ensures stored[k].id != stored[i].id {
      if es[k].id == "" {
        assert IdIsNew(es, stored, k);
      }
    }
  }

  lemma {:induction false} GivenIdStaysLast(es: seq<LogEntry>, stored: seq<LogEntry>, i: nat)
    requires Completes(es, stored) && NewIds(es, stored) && i < |es| && es[i].id != ""
    ensures LastWithId(stored, stored[i].id) == LastWithId(es, es[i].id)
  {
    var m := LastWithId(es, es[i].id);
    assert stored[i] == es[i] && stored[m] == es[m];
    forall k | m < k < |es| ensures stored[k].id != es[i].id {
      if es[k].id == "" {
        assert IdIsNew(es, stored, k);
      }
    }
  }

  lemma {:induction false} WritesAgreeAt(es: seq<LogEntry>, stored: seq<LogEntry>, i: nat)
    requires Completes(es, stored) && NewIds(es, stored) && i < |es|
    ensures (LastWithId(stored, stored[i].id) == i <==>
             LastOnLine(stored, stored[i].logFileId, stored[i].lineNumber) == i)
              <==> RepeatsHarmlessly(es, i)
  {
    LineOrderIsKept(es, stored, es[i].logFileId, es[i].lineNumber);
    assert stored[i] == es[i].(id := stored[i].id);
    if es[i].id == "" {
      GeneratedIdIsLast(es, stored, i);
    } else {
      GivenIdStaysLast(es, stored, i);
    }
  }

  lemma {:induction false} CompletedEntryFitsAlone(t: Tables, e: LogEntry, stored: LogEntry)
    requires EntryProblem(t, e).None? && stored == e.(id := stored.id) && stored.id != ""
    requires if e.id == "" then stored.id !in t.entries else stored == e
    ensures EntryFits(t, stored)
  {
  }

  /** Exactly which lists of individually acceptable entries leave the repository consistent, whatever ids are
      generated for those that have none. */
  lemma {:induction false} InsertKeepsConsistentIff(t: Tables, es: seq<LogEntry>, stored: seq<LogEntry>)
    requires Consistent(t) && Completes(es, stored) && NewIds(es, stored)
    requires forall i :: 0 <= i < |stored| ==> EntryFits(t, stored[i])
    ensures Consistent(PutEntries(t, stored)) <==> AllRepeatHarmlessly(es)
  {
    BatchKeepsConsistentIff(t, stored);
    forall i | 0 <= i < |es|
      ensures (LastWithId(stored, stored[i].id) == i <==>
                 LastOnLine(stored, stored[i].logFileId, stored[i].lineNumber) == i) <==> RepeatsHarmlessly(es, i)
    {
      WritesAgreeAt(es, stored, i);
    }
    if LastWritesAgree(stored) {
      forall i | 0 <= i < |es| ensures RepeatsHarmlessly(es, i) {
        WritesAgreeAt(es, stored, i);
      }
    }
  }

  /** What the collector passes, entries without ids, is safe exactly if no two are for the same line. */
  lemma {:induction false} EntriesWithoutIds(es: seq<LogEntry>)
    requires forall i :: 0 <= i < |es| ==> es[i].id == ""
    ensures AllRepeatHarmlessly(es) <==> forall i, j :: 0 <= i < j < |es| ==> !SameLine(es[i], es[j])
  {
    forall i | 0 <= i < |es|
      ensures RepeatsHarmlessly(es, i) ==> forall j :: i < j < |es| ==> !SameLine(es[i], es[j])
    {
    }
    if forall i, j :: 0 <= i < j < |es| ==> !SameLine(es[i], es[j]) {
      forall i | 0 <= i < |es| ensures RepeatsHarmlessly(es, i) {
        var k := LastOnLine(es, es[i].logFileId, es[i].lineNumber);
        assert i <= k && SameLine(es[i], es[k]);
      }
    } else {
      var i, j :| 0 <= i < j < |es| && SameLine(es[i], es[j]);
      assert !RepeatsHarmlessly(es, i);
    }
  }

  /** Two new entries for one line are both taken, and break the line index. */
  lemma {:induction false} RepeatedLineBreaksIndex(t: Tables, file: string, line: int, hash: string,
                                                   stored: seq<LogEntry>)
    requires Consistent(t) && file in t.logFiles && !LineTaken(t, file, line)
    requires var e := LogEntry("", file, line, "", hash);
             Completes([e, e], stored) && NewIds([e, e], stored) && stored[0].id !in t.entries &&
               stored[1].id !in t.entries
    ensures EntryProblem(t, LogEntry("", file, line, "", hash)).None?
    ensures !Consistent(PutEntries(t, stored))
  {
    var e := LogEntry("", file, line, "", hash);
    var es := [e, e];
    forall i | 0 <= i < |stored| ensures EntryFits(t, stored[i]) {
      CompletedEntryFitsAlone(t, e, stored[i]);
    }
    InsertKeepsConsistentIff(t, es, stored);
    EntriesWithoutIds(es);
    assert SameLine(es[0], es[1]);
  }

  // ---- Chunks: stored up to the first repetition ----

  /** What `CreateLogChunks` stores of its list. It is all of it exactly if no chunk is rejected; and it is a part of it
      exactly if every chunk is acceptable on its own but one repeats another. */
  lemma {:induction false} AppliedPrefixIs(t: Tables, cs: seq<LogChunk>, stored: seq<LogChunk>)
    requires AppliedPrefix(t, cs, stored)
    ensures |stored| == |cs| && AllAcceptableAlone(t, cs) <==>
              forall i :: 0 <= i < |cs| ==> !ChunkRejected(t, Given(cs), i)
    ensures 0 < |stored| < |cs| <==>
              AllAcceptableAlone(t, cs) && exists i :: 0 <= i < |cs| && ChunkRejected(t, Given(cs), i)
  {
    assert |Given(cs)| == |cs|;
    forall i | 0 <= i < |cs|
      ensures !ChunkRejected(t, Given(cs), i) ==> ChunkProblem(t, cs[i]).None?
      ensures i == 0 && ChunkProblem(t, cs[i]).None? ==> !ChunkRejected(t, Given(cs), i)
    {
      assert Given(cs)[i] == Some(cs[i]);
    }
  }

  /** Two new chunks with one number: the first is stored, then the call fails. */
  lemma {:induction false} RepeatedNumberIsStoredHalf(t: Tables, a: LogChunk, b: LogChunk, stored: seq<LogChunk>)
    requires ChunkProblem(t, a).None? && ChunkProblem(t, b).None? && SameNumber(a, b)
    requires AppliedPrefix(t, [a, b], stored)
    ensures |stored| == 1
  {
    var cs := [a, b];
    assert RepeatsChunk(Given(cs), 0, 1);
    assert ChunkRejected(t, Given(cs), 1);
    AppliedPrefixIs(t, cs, stored);
  }
}

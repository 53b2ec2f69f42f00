/** Server health: failure counters over runs and the exponential backoff, with the machine's integer width. */
module Health {
  import opened Prelude
  import opened Models
  import opened Tables
  import opened TableOps
  import opened Storage

  /** Durations are 64-bit; every operation on them is proved to stay in range. */
  newtype int64 = x: int | -0x8000_0000_0000_0000 <= x <= 0x7fff_ffff_ffff_ffff

  const DEFAULT_LAST_ERROR_MAX_LENGTH := 2048
  const UNKNOWN_ERROR := "unknown server health error"

  datatype Options = Options(failureThreshold: int, backoffBase: int64, backoffMax: int64, lastErrorMaxLength: int)

  function Normalized(o: Options): (r: Options)
    ensures r.failureThreshold > 0 && r.lastErrorMaxLength != 0
    ensures r.failureThreshold == (if o.failureThreshold > 0 then o.failureThreshold else 1)
    ensures r.lastErrorMaxLength == (if o.lastErrorMaxLength != 0 then o.lastErrorMaxLength else 2048)
    ensures r.backoffBase == o.backoffBase && r.backoffMax == o.backoffMax
  {
    o.(failureThreshold := if o.failureThreshold <= 0 then 1 else o.failureThreshold,
       lastErrorMaxLength := if o.lastErrorMaxLength == 0 then DEFAULT_LAST_ERROR_MAX_LENGTH else o.lastErrorMaxLength)
  }

  // ---- The delay ----

  function PowerOfTwo(k: nat): nat {
    if k == 0 then 1 else 2 * PowerOfTwo(k - 1)
  }

  /** `doublings` turns of the doubling loop; it jumps to the maximum as soon as half of it is reached. */
  function Doubled(duration: int, max: int, doublings: nat): int
    decreases doublings
  {
    if doublings == 0 then duration
    else if duration >= max / 2 then max
    else Doubled(2 * duration, max, doublings - 1)
  }

  function Delay(base: int, max: int, doublings: nat): int {
    Min(Doubled(base, max, doublings), max)
  }

  lemma {:induction false} PowersGrow(k: nat)
    ensures PowerOfTwo(k) >= 1 && PowerOfTwo(k + 1) == 2 * PowerOfTwo(k)
  {
    if k > 0 {
      PowersGrow(k - 1);
    }
  }

  lemma {:induction false} DoubledTwice(base: int, k: nat)
    requires k > 0
    ensures 2 * base * PowerOfTwo(k - 1) == base * PowerOfTwo(k)
  {
  }

  lemma {:induction false} GrowsByPowers(base: int, k: nat)
    requires base > 0
    ensures base * PowerOfTwo(k) >= base
    ensures k > 0 ==> base * PowerOfTwo(k) >= 2 * base
  {
    PowersGrow(k);
    assert base * PowerOfTwo(k) >= base * 1;
    if k > 0 {
      PowersGrow(k - 1);
      DoubledTwice(base, k);
      assert 2 * base * PowerOfTwo(k - 1) >= 2 * base * 1;
    }
  }

  /** The delay after `k` doublings, in closed form: the doubled base capped at the maximum, except that a doubled base
      one short of the maximum is rounded up to it. */
  lemma {:induction false} DelayIs(base: int, max: int, k: nat)
    requires base > 0 && max > 0
    ensures Delay(base, max, k) ==
              if k > 0 && base * PowerOfTwo(k) == max - 1 then max else Min(base * PowerOfTwo(k), max)
    decreases k
  {
    if k > 0 {
      PowersGrow(k - 1);
      DoubledTwice(base, k);
      GrowsByPowers(base, k);
      if base < max / 2 {
        DelayIs(2 * base, max, k - 1);
        if k == 1 {
          assert 2 * base * PowerOfTwo(0) == 2 * base;
        }
      }
    }
  }

  lemma {:induction false} EvenProduct(base: int, k: nat)
    requires k > 0
    ensures base * PowerOfTwo(k) == 2 * (base * PowerOfTwo(k - 1))
  {
    DoubledTwice(base, k);
    TwiceProduct(base, PowerOfTwo(k - 1));
  }

  lemma {:induction false} TwiceProduct(a: int, b: int)
    ensures 2 * a * b == 2 * (a * b)
  {
  }

  /** The documented capped doubling holds exactly when the doubled base is not one short of the maximum, which an even
      maximum rules out. */
  lemma {:induction false} DelayIsCappedDoublingIff(base: int, max: int, k: nat)
    requires base > 0 && max > 0
    ensures Delay(base, max, k) == Min(base * PowerOfTwo(k), max) <==> !(k > 0 && base * PowerOfTwo(k) == max - 1)
    ensures max % 2 == 0 ==> Delay(base, max, k) == Min(base * PowerOfTwo(k), max)
    ensures Min(base * PowerOfTwo(k), max) <= Delay(base, max, k) <= Min(base * PowerOfTwo(k), max) + 1
  {
    DelayIs(base, max, k);
    if k > 0 {
      EvenProduct(base, k);
    }
  }

  /** A case where rounding up shows: base 2 and maximum 5 wait 5 instead of 4 after one doubling. */
  lemma {:induction false} OddMaximumRoundsUp()
    ensures Delay(2, 5, 1) == 5 && Min(2 * PowerOfTwo(1), 5) == 4
  {
  }

  /** More failures never shorten the delay, and it always lies between the base and the maximum. */
  lemma {:induction false} DelayGrows(base: int, max: int, k: nat)
    requires base > 0 && max > 0
    ensures Delay(base, max, k) <= Delay(base, max, k + 1)
    ensures Min(base, max) <= Delay(base, max, k) <= max
  {
    DelayIs(base, max, k);
    DelayIs(base, max, k + 1);
    GrowsByPowers(base, k);
    EvenProduct(base, k + 1);
  }

  /** When a server that failed `failures` times in a row may be tried again. */
  function BackoffUntil(o: Options, failures: int, now: int): Option<int> {
    if o.backoffBase <= 0 || o.backoffMax <= 0 || failures < o.failureThreshold then None
    else Some(now + Delay(o.backoffBase as int, o.backoffMax as int, failures - o.failureThreshold))
  }

  method NextBackoffUntil(o: Options, failures: int, now: int) returns (until: Option<int>)
    ensures until == BackoffUntil(o, failures, now)
  {
    if o.backoffBase <= 0 || o.backoffMax <= 0 {
      return None;
    }
    if failures < o.failureThreshold {
      return None;
    }
    var duration := o.backoffBase;
    var i := 0;
    while i < failures - o.failureThreshold
      invariant 0 <= i <= failures - o.failureThreshold && duration > 0
      invariant Doubled(duration as int, o.backoffMax as int, failures - o.failureThreshold - i) ==
                  Doubled(o.backoffBase as int, o.backoffMax as int, failures - o.failureThreshold)
    {
      if duration >= o.backoffMax / 2 {
        duration := o.backoffMax;
        break;
      }
      duration := duration * 2;
      i := i + 1;
    }
    if duration > o.backoffMax {
      duration := o.backoffMax;
    }
    return Some(now + duration as int);
  }

  // ---- Recording outcomes ----

  /** The stored detail is the message from its beginning, or a stand-in for an empty one, cut at the configured length
      if there is one. */
  predicate Details(o: Options, message: string, stored: string) {
    var whole := if message == "" then "unknown server health error" else message;
    stored <= whole && |stored| == if o.lastErrorMaxLength > 0 then Min(|whole|, o.lastErrorMaxLength) else |whole|
  }

  /** Stored error details are never empty and at most as long as configured. */
  function LastError(o: Options, message: string): (r: string)
    ensures r != "" && Details(o, message, r)
    ensures o.lastErrorMaxLength > 0 ==> |r| <= o.lastErrorMaxLength
    ensures message != "" && (o.lastErrorMaxLength <= 0 || |message| <= o.lastErrorMaxLength) ==> r == message
  {
    var value := if message == "" then UNKNOWN_ERROR else message;
    if o.lastErrorMaxLength <= 0 || |value| <= o.lastErrorMaxLength then value else value[..o.lastErrorMaxLength]
  }

  /** What a sweep or an operator reports about a server; `now` is the clock at that moment. */
  datatype Report =
    | Reached(now: int)
    | Unreached(message: string, now: int)
    | PartlyReached(detail: string, now: int)
    | Cleared

  function After(o: Options, s: Server, report: Report): Server {
    match report
    case Reached(now) => Succeeded(s, now)
    case Unreached(message, now) => Failed(s, LastError(o, message), BackoffUntil(o, s.failureCount + 1, now))
    case PartlyReached(detail, now) =>
      s.(status := ServerDegraded, failureCount := 0, lastError := LastError(o, detail), lastSeenAt := Some(now),
         backoffUntil := None)
    case Cleared =>
      s.(failureCount := 0, lastError := "", backoffUntil := None,
         status := if s.status == ServerError then ServerActive else s.status)
  }

  predicate ShouldSkip(s: Server, now: int) {
    s.backoffUntil.Some? && now < s.backoffUntil.value
  }

  /** A server's own row never clashes with itself. */
  lemma {:induction false} OwnRowIsFree(servers: map<string, Server>, fold: string -> string, s: Server)
    requires ServersKeyed(servers) && ServersDistinct(servers, fold) && s.id in servers
    requires s.name == servers[s.id].name && s.host == servers[s.id].host
    ensures !NameOrHostTaken(servers, fold, s, s.id)
  {
  }

  /** The row after a partial failure: reachable and degraded, failures cleared, with this detail. */
  predicate ShowsDegraded(o: Options, before: Server, after: Server, detail: string, now: int) {
    SameRegistration(before, after) && after.status == ServerDegraded && after.successCount == before.successCount &&
    after.failureCount == 0 && Details(o, detail, after.lastError) && after.lastSeenAt == Some(now) &&
    after.backoffUntil == None
  }

  /** The row after a manual reset: free to be tried at once, and in error no longer. */
  predicate ShowsCleared(before: Server, after: Server) {
    SameRegistration(before, after) && after.successCount == before.successCount && after.failureCount == 0 &&
    after.lastError == "" && after.lastSeenAt == before.lastSeenAt && after.backoffUntil == None &&
    (before.status == ServerError ==> after.status == ServerActive) &&
    (before.status != ServerError ==> after.status == before.status)
  }

  method RecordSuccess(store: Store, o: Options, id: string, now: int) returns (r: Outcome<()>)
    requires store.Valid()
    modifies store
    ensures store.Valid() && (r.Success? <==> id in old(store.servers))
    ensures store.State() == if r.Success?
                             then PutServer(old(store.State()), After(o, old(store.servers)[id], Reached(now)))
                             else old(store.State())
    ensures r.Success? ==>
              id in store.servers && OnlyServerStored(old(store.State()), store.State(), store.servers[id]) &&
              ShowsSuccess(old(store.servers)[id], store.servers[id], now)
  {
    r := store.RecordServerSuccess(id, now);
  }

  /** The stored row after a failure: the counter goes on from the stored one, the backoff from the one the caller saw.
      */
  function AfterFailure(o: Options, stored: Server, seen: int, message: string, now: int): Server {
    Failed(stored, LastError(o, message), BackoffUntil(o, seen + 1, now))
  }

  method FailServer(store: Store, id: string, detail: string, until: Option<int>) returns (r: Outcome<()>)
    requires store.Valid()
    modifies store
    ensures store.Valid() && (r.Success? <==> id in old(store.servers))
    ensures store.State() == if r.Success?
                             then PutServer(old(store.State()), Failed(old(store.servers)[id], detail, until))
                             else old(store.State())
    ensures r.Success? ==>
              id in store.servers && OnlyServerStored(old(store.State()), store.State(), store.servers[id]) &&
              ShowsFailure(old(store.servers)[id], store.servers[id], detail, until)
  {
    r := store.RecordServerFailure(id, detail, until);
  }

  /** The caller's copy of the server may be outdated. */
  method RecordFailure(store: Store, o: Options, s: Server, message: string, now: int) returns (r: Outcome<()>)
    requires store.Valid()
    modifies store
    ensures store.Valid() && (r.Success? <==> s.id in old(store.servers))
    ensures store.State() == if r.Success?
                             then PutServer(old(store.State()),
                                            AfterFailure(o, old(store.servers)[s.id], s.failureCount, message, now))
                             else old(store.State())
    ensures r.Success? ==>
              s.id in store.servers && OnlyServerStored(old(store.State()), store.State(), store.servers[s.id]) &&
              Details(o, message, store.servers[s.id].lastError) &&
              store.servers[s.id].backoffUntil == BackoffUntil(o, s.failureCount + 1, now) &&
              ShowsFailure(old(store.servers)[s.id], store.servers[s.id], store.servers[s.id].lastError,
                           store.servers[s.id].backoffUntil)
  {
    var until := NextBackoffUntil(o, s.failureCount + 1, now);
    var detail := LastError(o, message);
    r := FailServer(store, s.id, detail, until);
  }

  /** Load, change, store: the whole row is written back. */
  method WriteBack(store: Store, o: Options, id: string, report: Report) returns (r: Outcome<()>)
    requires store.Valid() && (report.PartlyReached? || report.Cleared?)
    modifies store
    ensures store.Valid() && (r.Success? <==> id in old(store.servers))
    ensures store.State() == if r.Success?
                             then PutServer(old(store.State()), After(o, old(store.servers)[id], report))
                             else old(store.State())
    ensures r.Success? ==>
              id in store.servers && OnlyServerStored(old(store.State()), store.State(), store.servers[id]) &&
              if report.PartlyReached?
              then ShowsDegraded(o, old(store.servers)[id], store.servers[id], report.detail, report.now)
              else ShowsCleared(old(store.servers)[id], store.servers[id])
  {
    var got := store.GetServerByID(id);
    if got.Failure? {
      return Failure(got.error);
    }
    var s := got.value;
    if report.PartlyReached? {
      s := s.(status := ServerDegraded, failureCount := 0, lastError := LastError(o, report.detail),
              lastSeenAt := Some(report.now), backoffUntil := None);
    } else {
      s := s.(failureCount := 0, lastError := "", backoffUntil := None);
      if s.status == ServerError {
        s := s.(status := ServerActive);
      }
    }
    OwnRowIsFree(store.servers, store.fold, s);
    r := store.UpdateServer(s);
  }

  // ---- Over runs ----

  function AfterAll(o: Options, s: Server, reports: seq<Report>): Server {
    if reports == [] then s else After(o, AfterAll(o, s, reports[..|reports| - 1]), reports[|reports| - 1])
  }

  /** How many reports at the end are failures. */
  function TrailingFailures(reports: seq<Report>): nat {
    if reports == [] || !reports[|reports| - 1].Unreached? then 0
    else 1 + TrailingFailures(reports[..|reports| - 1])
  }

  function CountReached(reports: seq<Report>): nat {
    if reports == [] then 0
    else CountReached(reports[..|reports| - 1]) + if reports[|reports| - 1].Reached? then 1 else 0
  }

  /** Over any run the failure counter is the number of failures since the last success, degraded result or manual
      reset (plus what it started from if there was none), successes are all counted, and a server is held back exactly
      while its last report is a failure that reached the threshold, for the delay computed above. */
  lemma {:induction false} CountersOverRuns(o: Options, s: Server, reports: seq<Report>)
    requires s.backoffUntil == None
    ensures var s' := AfterAll(o, s, reports);
            var n := TrailingFailures(reports);
            s'.failureCount == (if n == |reports| then s.failureCount + n else n) &&
            s'.successCount == s.successCount + CountReached(reports) &&
            s'.backoffUntil ==
              (if n == 0 then None else BackoffUntil(o, s'.failureCount, reports[|reports| - 1].now))
  {
    if reports != [] {
      CountersOverRuns(o, s, reports[..|reports| - 1]);
    }
  }

  /** The status reports leave: that of the last one, where a reset turns an error into active and else changes
      nothing. */
  function StatusAfter(status: ServerStatus, reports: seq<Report>): ServerStatus {
    if reports == [] then status
    else
      match reports[|reports| - 1]
      case Reached(_) => ServerActive
      case Unreached(_, _) => ServerError
      case PartlyReached(_, _) => ServerDegraded
      case Cleared =>
        var before := StatusAfter(status, reports[..|reports| - 1]);
        if before == ServerError then ServerActive else before
  }

  /** When the server was last reached, fully or partly. */
  function SeenAfter(seenAt: Option<int>, reports: seq<Report>): Option<int> {
    if reports == [] then seenAt
    else if reports[|reports| - 1].Reached? || reports[|reports| - 1].PartlyReached?
    then Some(reports[|reports| - 1].now)
    else SeenAfter(seenAt, reports[..|reports| - 1])
  }

  /** What a server shows over any run: the status the last report gives it, the time it was last reached, and the
      detail of the last report if that was a failure or a partial one, otherwise none. How it is registered stays. */
  lemma {:induction false} LastReportShows(o: Options, s: Server, reports: seq<Report>)
    requires reports != []
    ensures var s', last := AfterAll(o, s, reports), reports[|reports| - 1];
            SameRegistration(s, s') && s'.status == StatusAfter(s.status, reports) &&
            s'.lastSeenAt == SeenAfter(s.lastSeenAt, reports) &&
            match last
            case Unreached(message, _) => Details(o, message, s'.lastError)
            case PartlyReached(detail, _) => Details(o, detail, s'.lastError)
            case _ => s'.lastError == ""
  {
    if |reports| > 1 {
      LastReportShows(o, s, reports[..|reports| - 1]);
    } else {
      assert reports[..0] == [];
    }
  }

  // ---- Failures recorded from outdated copies ----

  /** A run in which the i-th report, if it is a failure, comes from a caller who saw `seen[i]` failures. */
  function AfterAllSeen(o: Options, s: Server, reports: seq<Report>, seen: seq<int>): Server
    requires |seen| == |reports|
  {
    if reports == [] then s else
      var n := |reports| - 1;
      var before := AfterAllSeen(o, s, reports[..n], seen[..n]);
      match reports[n]
      case Unreached(message, now) => AfterFailure(o, before, seen[n], message, now)
      case _ => After(o, before, reports[n])
  }

  /** Everything but the time of the next try. */
  function ButBackoff(s: Server): Server {
    s.(backoffUntil := None)
  }

  lemma {:induction false} LongerAndLonger(o: Options, few: int, many: int, now: int)
    requires few <= many
    ensures BackoffUntil(o, few, now).Some? ==>
              BackoffUntil(o, many, now).Some? && BackoffUntil(o, few, now).value <= BackoffUntil(o, many, now).value
    decreases many - few
  {
    if few < many && BackoffUntil(o, few, now).Some? {
      DelayGrows(o.backoffBase as int, o.backoffMax as int, few - o.failureThreshold);
      LongerAndLonger(o, few + 1, many, now);
    }
  }

  /** Outdated copies never spoil a counter, and at most the time of the next try: it is the right one exactly if the
      last report is no failure, or the count its caller saw comes to the same time as the stored count. A caller who
      saw fewer failures than were stored sets no later time. */
  lemma {:induction false} OutdatedCopiesIff(o: Options, s: Server, reports: seq<Report>, seen: seq<int>)
    requires |seen| == |reports|
    ensures var a, b, n := AfterAllSeen(o, s, reports, seen), AfterAll(o, s, reports), |reports| - 1;
            ButBackoff(a) == ButBackoff(b) &&
            (a == b <==>
               n < 0 || !reports[n].Unreached? ||
               BackoffUntil(o, seen[n] + 1, reports[n].now) == BackoffUntil(o, b.failureCount, reports[n].now)) &&
            (n >= 0 && reports[n].Unreached? && seen[n] < b.failureCount && a.backoffUntil.Some? ==>
               b.backoffUntil.Some? && a.backoffUntil.value <= b.backoffUntil.value)
  {
    if reports != [] {
      var n := |reports| - 1;
      OutdatedCopiesIff(o, s, reports[..n], seen[..n]);
      SameButBackoff(o, AfterAllSeen(o, s, reports[..n], seen[..n]), AfterAll(o, s, reports[..n]), reports[n], seen[n]);
    }
  }

  /** Two callers who both loaded the server before either recorded its failure: the second failure waits as short as
      the first. */
  lemma {:induction false} OutdatedCopyWaitsTooShort(o: Options, s: Server, now: int)
    requires s.failureCount == 0 && o.failureThreshold == 1 && o.backoffBase == 1 && o.backoffMax == 100
    ensures var reports := [Unreached("", now), Unreached("", now)];
            AfterAllSeen(o, s, reports, [0, 0]).backoffUntil == Some(now + 1) &&
            AfterAll(o, s, reports).backoffUntil == Some(now + 2)
  {
    var reports := [Unreached("", now), Unreached("", now)];
    assert reports[..1] == [Unreached("", now)] && reports[..1][..0] == [] && [0, 0][..1] == [0];
    assert AfterAll(o, s, reports[..1]).failureCount == 1;
    assert Delay(1, 100, 0) == 1 && Delay(1, 100, 1) == 2;
  }

  lemma {:induction false} SameButBackoff(o: Options, a: Server, b: Server, report: Report, seen: int)
    requires ButBackoff(a) == ButBackoff(b)
    ensures !report.Unreached? ==> After(o, a, report) == After(o, b, report)
    ensures report.Unreached? ==>
              var a', b' := AfterFailure(o, a, seen, report.message, report.now), After(o, b, report);
              ButBackoff(a') == ButBackoff(b') && a'.backoffUntil == BackoffUntil(o, seen + 1, report.now) &&
              b'.backoffUntil == BackoffUntil(o, b'.failureCount, report.now) &&
              (seen < b'.failureCount && a'.backoffUntil.Some? ==>
                 b'.backoffUntil.Some? && a'.backoffUntil.value <= b'.backoffUntil.value)
  {
    if report.Unreached? && seen < b.failureCount + 1 {
      LongerAndLonger(o, seen + 1, b.failureCount + 1, report.now);
    }
  }

  /** Failing over and over, a server waits longer and longer: at least the smaller of base and maximum, never more than
      the maximum. */
  lemma {:induction false} RepeatedFailuresWaitLonger(o: Options, s: Server, reports: seq<Report>, more: seq<Report>,
                                                      now: int)
    requires s.backoffUntil == None && s.failureCount >= 0 && o.backoffBase > 0 && o.backoffMax > 0
    requires TrailingFailures(reports) >= o.failureThreshold > 0
    requires more == reports + [Unreached("", now)]
    ensures var last := reports[|reports| - 1].now;
            var first, second := AfterAll(o, s, reports).backoffUntil, AfterAll(o, s, more).backoffUntil;
            first.Some? && second.Some? && first.value - last <= second.value - now &&
            Min(o.backoffBase as int, o.backoffMax as int) <= first.value - last <= o.backoffMax as int
  {
    var failures := AfterAll(o, s, reports).failureCount;
    assert failures >= o.failureThreshold &&
           AfterAll(o, s, reports).backoffUntil == BackoffUntil(o, failures, reports[|reports| - 1].now) by {
      CountersOverRuns(o, s, reports);
      TrailingAtMostAll(reports);
    }
    assert AfterAll(o, s, more).backoffUntil == BackoffUntil(o, failures + 1, now) by {
      assert more[..|more| - 1] == reports;
    }
    DelayGrows(o.backoffBase as int, o.backoffMax as int, failures - o.failureThreshold);
  }

  /** Scheduled work passes over a server exactly while its failures in a row reached the threshold and the delay since
      the last of them is not over. */
  lemma {:induction false} SkippedIff(o: Options, s: Server, reports: seq<Report>, at: int)
    requires s.backoffUntil == None && reports != []
    ensures var s', last := AfterAll(o, s, reports), reports[|reports| - 1];
            ShouldSkip(s', at) <==>
              last.Unreached? && o.backoffBase > 0 && o.backoffMax > 0 && s'.failureCount >= o.failureThreshold &&
              at < last.now + Delay(o.backoffBase as int, o.backoffMax as int, s'.failureCount - o.failureThreshold)
  {
    CountersOverRuns(o, s, reports);
  }

  lemma {:induction false} TrailingAtMostAll(reports: seq<Report>)
    ensures TrailingFailures(reports) <= |reports|
  {
    if reports != [] && reports[|reports| - 1].Unreached? {
      TrailingAtMostAll(reports[..|reports| - 1]);
    }
  }
}

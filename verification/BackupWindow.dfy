/** Backup windows (pkg/collections/model.go:69-122, pkg/collections/service.go:18-37, pkg/health/backupwindow.go). */
module BackupWindow {
  import opened Options

  /** Instants and durations are in nanoseconds; a schedule's runs are whole minutes, UTC. */
  const SECOND: int := 1_000_000_000
  const MINUTE: int := 60 * SECOND

  /** `60*24*30*12`, the retry cap of the backward search. */
  const MAX_RETRIES: int := 518400

  /** `cron.Schedule.Next`. */
  type Next = int -> int

  /** The answer to one question is a whole minute after it, and stays the same until it is reached. */
  ghost predicate Answers(next: Next, t: int) {
    next(t) > t && next(t) % MINUTE == 0 && forall u :: t <= u < next(t) ==> next(u) == next(t)
  }

  ghost predicate IsSchedule(next: Next) {
    forall t :: Answers(next, t)
  }

  /** `s` is a scheduled run. */
  predicate IsRun(next: Next, s: int) {
    next(s - 1) == s
  }

  /** `p` is the latest run before `ref`. */
  ghost predicate IsPrevious(next: Next, ref: int, p: int) {
    IsRun(next, p) && p < ref && forall s :: IsRun(next, s) && s < ref ==> s <= p
  }

  /** `next` finds the least run after `t`. */
  lemma NextIsLeast(next: Next, t: int, s: int)
    requires IsSchedule(next)
    ensures t < next(t) && IsRun(next, next(t))
    ensures IsRun(next, s) && s > t ==> next(t) <= s
    ensures IsRun(next, s) ==> s % MINUTE == 0
  {
    assert Answers(next, t) && Answers(next, s - 1);
    assert next(next(t) - 1) == next(t);
  }

  /**
   * Walking back from `u` to `t`, at most a minute, the answer changes: it is then the latest run before the old
   * answer.
   */
  lemma FirstDifference(next: Next, t: int, u: int)
    requires IsSchedule(next) && t < u <= t + MINUTE && next(t) != next(u)
    ensures IsPrevious(next, next(u), next(t)) && t < next(t)
  {
    var ref, p := next(u), next(t);
    NextIsLeast(next, t, p);
    NextIsLeast(next, u, p);
    assert Answers(next, t);
    assert p <= u < ref;
    forall s | IsRun(next, s) && s < ref
      ensures s <= p
    {
      NextIsLeast(next, u, s);
      NextIsLeast(next, t, s);
      if p < s {
        OneMultiple(t, p, s);
      }
    }
  }

  lemma OneMultiple(t: int, p: int, s: int)
    requires t < p <= t + MINUTE && t < s <= t + MINUTE && p % MINUTE == 0 && s % MINUTE == 0
    ensures p == s
  {
  }

  /** The run the search starts from: the first one later than a second ago. */
  function Reference(next: Next, current: int): int {
    next(current - SECOND)
  }

  /** The search cannot see runs at or before this instant. */
  function Horizon(current: int): int {
    current - (MAX_RETRIES + 1) * MINUTE
  }

  /** What the search looks for: the latest run before the reference run, later than the horizon. */
  ghost predicate Finds(next: Next, current: int, run: Option<int>) {
    match run
    case Some(p) => IsPrevious(next, Reference(next, current), p) && p > Horizon(current)
    case None => forall s :: IsRun(next, s) && s < Reference(next, current) ==> s <= Horizon(current)
  }

  lemma Exhausted(next: Next, current: int)
    requires IsSchedule(next) && next(Horizon(current)) == Reference(next, current)
    ensures Finds(next, current, None)
  {
    forall s | IsRun(next, s) && s < Reference(next, current)
      ensures s <= Horizon(current)
    {
      NextIsLeast(next, Horizon(current), s);
    }
  }

  /** `GetStartingDateOfPreviousScheduledRun`, with `None` for the error of an exhausted search. */
  method PreviousScheduledRun(next: Next, current: int) returns (run: Option<int>)
    requires IsSchedule(next)
    ensures Finds(next, current, run)
  {
    var nextRun := next(current);
    var possibleNextRunNow := current - SECOND;
    if next(possibleNextRunNow) != nextRun {
      nextRun := next(possibleNextRunNow);
    }
    var startDate := current;
    var retries := 0;
    ghost var answered := current - SECOND;
    while true
      invariant 0 <= retries <= MAX_RETRIES && startDate == current - retries * MINUTE
      invariant nextRun == Reference(next, current) == next(answered)
      invariant startDate - MINUTE < answered <= startDate
      decreases MAX_RETRIES - retries
    {
      retries := retries + 1;
      startDate := startDate - MINUTE;
      var possiblePrevRun := next(startDate);
      if possiblePrevRun != nextRun {
        FirstDifference(next, startDate, answered);
        return Some(possiblePrevRun);
      }
      if retries > MAX_RETRIES {
        Exhausted(next, current);
        return None;
      }
      answered := startDate;
    }
  }

  /** There is one right answer, so the search is exact: it finds a run if and only if there is one to find. */
  lemma FindsUnique(next: Next, current: int, a: Option<int>, b: Option<int>)
    requires Finds(next, current, a) && Finds(next, current, b)
    ensures a == b
  {
  }

  /** Every run has a predecessor, at most the retry cap in minutes before it. */
  ghost predicate GapsWithinCap(next: Next) {
    forall s :: IsRun(next, s) ==> HasPredecessor(next, s)
  }

  ghost predicate HasPredecessor(next: Next, s: int) {
    exists p :: IsPrevious(next, s, p) && s - p <= MAX_RETRIES * MINUTE
  }

  ghost predicate Succeeds(next: Next, current: int) {
    exists p :: Finds(next, current, Some(p))
  }

  /** The search succeeds at every instant if and only if every run has one at most 518400 minutes before it. */
  lemma SearchTotalIff(next: Next)
    requires IsSchedule(next)
    ensures (forall current :: Succeeds(next, current)) <==> GapsWithinCap(next)
  {
    if GapsWithinCap(next) {
      forall current
        ensures Succeeds(next, current)
      {
        NextIsLeast(next, current - SECOND, 0);
        PredecessorIsFound(next, current);
      }
    }
    if forall current :: Succeeds(next, current) {
      forall s | IsRun(next, s)
        ensures HasPredecessor(next, s)
      {
        FoundIsPredecessor(next, s);
      }
    }
  }

  lemma PredecessorIsFound(next: Next, current: int)
    requires HasPredecessor(next, Reference(next, current)) && current - SECOND < Reference(next, current)
    ensures Succeeds(next, current)
  {
    var ref := Reference(next, current);
    var p :| IsPrevious(next, ref, p) && ref - p <= MAX_RETRIES * MINUTE;
    assert Finds(next, current, Some(p));
  }

  lemma MinutesApart(s: int, p: int)
    requires s % MINUTE == 0 && p % MINUTE == 0 && s - p < (MAX_RETRIES + 1) * MINUTE
    ensures s - p <= MAX_RETRIES * MINUTE
  {
    var a, b := s / MINUTE, p / MINUTE;
    assert s == a * MINUTE && p == b * MINUTE;
    assert s - p == (a - b) * MINUTE;
  }

  /** The instant just before `s` is a second old is the worst one to search for its predecessor. */
  lemma FoundIsPredecessor(next: Next, s: int)
    requires IsSchedule(next) && IsRun(next, s) && Succeeds(next, s + SECOND - 1)
    ensures HasPredecessor(next, s)
  {
    var p :| Finds(next, s + SECOND - 1, Some(p));
    NextIsLeast(next, s, s);
    NextIsLeast(next, s, p);
    MinutesApart(s, p);
    assert IsPrevious(next, s, p);
  }

  /** One run every `minutes` minutes. */
  function Every(minutes: int): Next
    requires minutes >= 1
  {
    (t: int) => NextMultiple(t, minutes * MINUTE)
  }

  /** The least multiple of `period` after `t`. */
  function NextMultiple(t: int, period: int): (n: int)
    requires period >= 1
  {
    t - t % period + period
  }

  lemma MultiplePlus(n: int, k: int, period: int)
    requires period >= 1 && n % period == 0
    ensures (n + k * period) % period == 0
  {
    assert n + k * period == (n / period + k) * period + 0;
    MultipleOf(n / period + k, period);
  }

  lemma AtLeastOne(k: int, period: int)
    requires period >= 1
    ensures k >= 1 ==> k * period >= period
    ensures k <= -1 ==> k * period <= -period
  {
    if k >= 1 { assert k * period == (k - 1) * period + period && (k - 1) * period >= 0; }
    if k <= -1 { assert k * period == (k + 1) * period - period && (k + 1) * period <= 0; }
  }

  lemma MultipleOf(q: int, period: int)
    requires period >= 1
    ensures (q * period) % period == 0
  {
    var x := q * period;
    var d := q - x / period;
    assert x % period == d * period;
    AtLeastOne(d, period);
  }

  lemma NextMultipleIs(t: int, period: int)
    requires period >= 1
    ensures var n := NextMultiple(t, period); t < n <= t + period && n % period == 0
  {
    var floor := t - t % period;
    assert floor == (t / period) * period;
    MultipleOf(t / period, period);
    MultiplePlus(floor, 1, period);
  }

  /** Two multiples less than a period apart are the same. */
  lemma NearMultiples(m: int, n: int, period: int)
    requires period >= 1 && m % period == 0 && n % period == 0 && -period < m - n < period
    ensures m == n
  {
    var a, b := m / period, n / period;
    assert m - n == (a - b) * period;
    AtLeastOne(a - b, period);
  }

  lemma WholeMinutes(n: int, minutes: int)
    requires minutes >= 1 && n % (minutes * MINUTE) == 0
    ensures n % MINUTE == 0
  {
    var period := minutes * MINUTE;
    assert n == (n / period) * period;
    assert (n / period) * period == ((n / period) * minutes) * MINUTE;
    MultipleOf((n / period) * minutes, MINUTE);
  }

  lemma EveryAnswers(minutes: int, t: int)
    requires minutes >= 1
    ensures Answers(Every(minutes), t)
  {
    var period := minutes * MINUTE;
    var n := NextMultiple(t, period);
    NextMultipleIs(t, period);
    WholeMinutes(n, minutes);
    forall u | t <= u < n
      ensures NextMultiple(u, period) == n
    {
      NextMultipleIs(u, period);
      NearMultiples(NextMultiple(u, period), n, period);
    }
  }

  lemma EveryIsSchedule(minutes: int)
    requires minutes >= 1
    ensures IsSchedule(Every(minutes))
  {
    forall t
      ensures Answers(Every(minutes), t)
    {
      EveryAnswers(minutes, t);
    }
  }

  lemma RunsOfEvery(minutes: int, s: int)
    requires minutes >= 1
    ensures IsRun(Every(minutes), s) <==> s % (minutes * MINUTE) == 0
  {
    var period := minutes * MINUTE;
    NextMultipleIs(s - 1, period);
    if s % period == 0 { NearMultiples(NextMultiple(s - 1, period), s, period); }
  }

  /** The predecessor of a run is the run one period before. */
  lemma PredecessorOfEvery(minutes: int, s: int, p: int)
    requires minutes >= 1 && IsRun(Every(minutes), s)
    ensures IsPrevious(Every(minutes), s, p) <==> p == s - minutes * MINUTE
  {
    var period := minutes * MINUTE;
    RunsOfEvery(minutes, s);
    MultiplePlus(s, -1, period);
    RunsOfEvery(minutes, s - period);
    forall r | IsRun(Every(minutes), r) && r < s
      ensures r <= s - period
    {
      RunsOfEvery(minutes, r);
      if r > s - period { NearMultiples(r, s, period); }
    }
  }

  /**
   * A schedule with a run every so many minutes can be searched at every instant if and only if these are at most 360
   * days. So a daily, a weekly and a monthly one always can.
   */
  lemma PeriodicSearchIff(minutes: int)
    requires minutes >= 1
    ensures (forall current :: Succeeds(Every(minutes), current)) <==> minutes <= 360 * 24 * 60
  {
    EveryIsSchedule(minutes);
    SearchTotalIff(Every(minutes));
    if minutes <= 360 * 24 * 60 {
      forall s | IsRun(Every(minutes), s)
        ensures HasPredecessor(Every(minutes), s)
      {
        PredecessorOfEvery(minutes, s, s - minutes * MINUTE);
      }
    } else {
      FarRunIsLost(minutes);
    }
  }

  lemma FarRunIsLost(minutes: int)
    requires minutes > 360 * 24 * 60
    ensures IsRun(Every(minutes), 0) && !HasPredecessor(Every(minutes), 0)
  {
    RunsOfEvery(minutes, 0);
    forall p | IsPrevious(Every(minutes), 0, p)
      ensures 0 - p > MAX_RETRIES * MINUTE
    {
      PredecessorOfEvery(minutes, 0, p);
    }
  }

  /** Whatever the schedule: if no two runs are more than 360 days apart, the search succeeds at every instant. */
  lemma CloseRunsAreFound(next: Next, current: int)
    requires IsSchedule(next)
    requires forall s :: IsRun(next, s) ==> exists p :: IsPrevious(next, s, p) && s - p <= 360 * 24 * 60 * MINUTE
    ensures Succeeds(next, current)
  {
    forall s | IsRun(next, s)
      ensures HasPredecessor(next, s)
    {
      var p :| IsPrevious(next, s, p) && s - p <= 360 * 24 * 60 * MINUTE;
    }
    SearchTotalIff(next);
  }

  const YEAR_MINUTES: int := 365 * 24 * 60

  /** A yearly window cannot be searched all year round: the cap falls short of it. */
  lemma YearlyScheduleFails()
    ensures exists current :: !Succeeds(Every(YEAR_MINUTES), current)
  {
    PeriodicSearchIff(YEAR_MINUTES);
  }

  // ---------------------------------------------------------------- upload permission

  datatype Window = Window(next: Next, duration: int)

  /** Some run within the search horizon is at least a second old and its window has not ended. */
  ghost predicate Open(w: Window, current: int) {
    exists s :: IsRun(w.next, s) && Horizon(current) < s && s + SECOND <= current < s + w.duration
  }

  /** Looking at one predecessor is enough, even when windows overlap. */
  lemma OpenByPredecessor(w: Window, current: int, p: int)
    requires IsSchedule(w.next) && Finds(w.next, current, Some(p))
    ensures p + SECOND <= current
    ensures current < p + w.duration <==> Open(w, current)
  {
    NextIsLeast(w.next, current - SECOND, p);
    forall s | IsRun(w.next, s) && s + SECOND <= current
      ensures s <= p
    {
      NextIsLeast(w.next, current - SECOND, s);
    }
  }

  lemma ClosedBeyondHorizon(w: Window, current: int)
    requires IsSchedule(w.next) && Finds(w.next, current, None)
    ensures !Open(w, current)
  {
    NextIsLeast(w.next, current - SECOND, 0);
  }

  /** `IsInPreviousWindowTimeSlot`. */
  method IsInPreviousWindowTimeSlot(w: Window, now: int, created: int) returns (matches: bool, failed: bool)
    requires IsSchedule(w.next)
    ensures failed <==> Finds(w.next, now, None)
    ensures matches <==> exists p :: Finds(w.next, now, Some(p)) && p < created < p + w.duration
  {
    var previousRun := PreviousScheduledRun(w.next, now);
    if previousRun.None? {
      forall p | Finds(w.next, now, Some(p))
        ensures false
      {
        FindsUnique(w.next, now, None, Some(p));
      }
      return false, true;
    }
    var endDate := previousRun.value + w.duration;
    forall p | Finds(w.next, now, Some(p))
      ensures p == previousRun.value
    {
      FindsUnique(w.next, now, previousRun, Some(p));
    }
    return previousRun.value < created && created < endDate, false;
  }

  /** `IsInWindowNow`. */
  method IsInWindowNow(w: Window, current: int) returns (inWindow: bool, failed: bool)
    requires IsSchedule(w.next)
    ensures inWindow <==> Open(w, current)
    ensures failed <==> Finds(w.next, current, None)
  {
    var startDate := PreviousScheduledRun(w.next, current);
    if startDate.None? {
      ClosedBeyondHorizon(w, current);
      return false, true;
    }
    var endDate := startDate.value + w.duration;
    OpenByPredecessor(w, current, startDate.value);
    return startDate.value < current && current < endDate, false;
  }

  /** `ValidateIsBackupWindowAllowingToUpload`. */
  method IsUploadAllowed(windows: seq<Window>, current: int) returns (ok: bool)
    requires forall w :: w in windows ==> IsSchedule(w.next)
    ensures ok <==> windows == [] || exists w :: w in windows && Open(w, current)
  {
    if |windows| == 0 {
      return true;
    }
    for i := 0 to |windows|
      invariant forall k :: 0 <= k < i ==> !Open(windows[k], current)
    {
      var result, failed := IsInWindowNow(windows[i], current);
      if result {
        return true;
      }
    }
    return false;
  }

  /** For windows no longer than the search horizon the answer is the plain definition, at every instant. */
  lemma OpenIff(w: Window, current: int)
    requires w.duration <= (MAX_RETRIES + 1) * MINUTE
    ensures Open(w, current) <==> exists s :: IsRun(w.next, s) && s + SECOND <= current < s + w.duration
  {
  }

  // ---------------------------------------------------------------- health

  /** The latest backup lies in the window of the previous run, or that window is still open. */
  ghost predicate InSlot(w: Window, created: int, now: int) {
    exists p :: Finds(w.next, now, Some(p)) && (p < created < p + w.duration || p < now < p + w.duration)
  }

  /** `time.Time{}`, the first instant of year 1, counted from the Unix epoch. */
  const ZERO_TIME: int := -62135596800 * SECOND

  /** What the health check reads of a registered version. */
  datatype Backup = Backup(versionNumber: int, created: int)

  /** When the version with the highest number was created; a query that finds no row leaves the zero value. */
  function LatestCreated(backups: seq<Backup>): (created: int)
    ensures backups == [] ==> created == ZERO_TIME
    ensures backups != [] ==> exists b :: b in backups && b.created == created
                                          && forall other :: other in backups ==> other.versionNumber <= b.versionNumber
  {
    if backups == [] then ZERO_TIME else backups[LatestIndex(backups)].created
  }

  function LatestIndex(backups: seq<Backup>): (k: nat)
    requires backups != []
    ensures k < |backups| && forall other :: other in backups ==> other.versionNumber <= backups[k].versionNumber
  {
    if |backups| == 1 then 0
    else
      var k := LatestIndex(backups[1..]) + 1;
      if backups[k].versionNumber < backups[0].versionNumber then 0 else k
  }

  /** The one backup with the highest number. */
  predicate IsLatest(backups: seq<Backup>, b: Backup) {
    b in backups && forall other :: other in backups && other != b ==> other.versionNumber < b.versionNumber
  }

  /** Whatever the order of the listing, it is the highest number that counts. */
  lemma LatestIsHighest(backups: seq<Backup>, b: Backup)
    requires IsLatest(backups, b)
    ensures FindLatestVersion(backups, false) == Some(b.created)
  {
    assert backups[LatestIndex(backups)] in backups;
  }

  /** Any listing of the same, distinctly numbered backups gives the same answer. */
  lemma LatestOfListing(backups: seq<Backup>, listed: seq<Backup>, queryFails: bool)
    requires multiset(listed) == multiset(backups)
    requires forall i, j :: 0 <= i < j < |backups| ==> backups[i].versionNumber != backups[j].versionNumber
    ensures FindLatestVersion(listed, queryFails) == FindLatestVersion(backups, queryFails)
  {
    assert |listed| == |multiset(listed)| == |multiset(backups)| == |backups|;
    if backups != [] {
      var b := backups[LatestIndex(backups)];
      assert forall o :: o in listed <==> o in multiset(listed);
      assert forall o :: o in backups <==> o in multiset(backups);
      assert IsLatest(backups, b) && IsLatest(listed, b);
      LatestIsHighest(backups, b);
      LatestIsHighest(listed, b);
    }
  }

  /** `FindLatestVersion`: `None` for a failed query only. */
  function FindLatestVersion(backups: seq<Backup>, queryFails: bool): Option<int> {
    if queryFails then None else Some(LatestCreated(backups))
  }

  /** The window at `i` matches, and no search before it fails. */
  ghost predicate Decides(windows: seq<Window>, i: int, created: int, now: int)
    requires 0 <= i < |windows|
  {
    InSlot(windows[i], created, now) && forall k :: 0 <= k < i ==> !Finds(windows[k].next, now, None)
  }

  /** `BackupWindowValidator.Validate` in one formula: the first window that decides is one that matches. */
  ghost predicate Healthy(windows: seq<Window>, latest: Option<int>, now: int) {
    windows == [] ||
    (latest.Some? &&
     exists i :: 0 <= i < |windows| && InSlot(windows[i], latest.value, now)
                 && forall k :: 0 <= k < i ==> !Finds(windows[k].next, now, None))
  }

  /** `BackupWindowValidator.Validate`. */
  method ValidateBackupWindow(windows: seq<Window>, backups: seq<Backup>, queryFails: bool, now: int)
      returns (healthy: bool)
    requires forall w :: w in windows ==> IsSchedule(w.next)
    ensures healthy <==> Healthy(windows, FindLatestVersion(backups, queryFails), now)
    ensures forall b :: IsLatest(backups, b) && !queryFails ==> (healthy <==> Healthy(windows, Some(b.created), now))
    ensures windows == [] ==> healthy
    ensures queryFails && windows != [] ==> !healthy
  {
    forall b | IsLatest(backups, b)
      ensures FindLatestVersion(backups, false) == Some(b.created)
    {
      LatestIsHighest(backups, b);
    }
    if |windows| == 0 {
      return true;
    }
    var latest := FindLatestVersion(backups, queryFails);
    if latest.None? {
      return false;
    }
    for i := 0 to |windows|
      invariant forall k :: 0 <= k < i ==> !Finds(windows[k].next, now, None) && !InSlot(windows[k], latest.value, now)
    {
      var matches, failed := IsInPreviousWindowTimeSlot(windows[i], now, latest.value);
      if failed {
        FailedNotInSlot(windows[i], latest.value, now);
        return false;
      }
      if matches {
        assert InSlot(windows[i], latest.value, now);
        return true;
      }
      matches, failed := IsInPreviousWindowTimeSlot(windows[i], now, now);
      if matches {
        assert InSlot(windows[i], latest.value, now);
        return true;
      }
    }
    return false;
  }

  lemma FailedNotInSlot(w: Window, created: int, now: int)
    requires Finds(w.next, now, None)
    ensures !InSlot(w, created, now)
  {
    forall p | Finds(w.next, now, Some(p))
      ensures false
    {
      FindsUnique(w.next, now, None, Some(p));
    }
  }

  /**
   * Window by window: one that cannot be searched decides against the rest, one that matches for it, any other leaves
   * it to them.
   */
  lemma HealthyByWindow(w: Window, rest: seq<Window>, created: int, now: int)
    ensures Healthy([w], Some(created), now) <==> InSlot(w, created, now)
    ensures rest != [] ==>
              (Healthy([w] + rest, Some(created), now) <==>
               !Finds(w.next, now, None) && (InSlot(w, created, now) || Healthy(rest, Some(created), now)))
  {
    assert [w][0] == w;
    if Finds(w.next, now, None) { FailedNotInSlot(w, created, now); }
    var all := [w] + rest;
    assert all[0] == w && forall k :: 0 <= k < |rest| ==> all[k + 1] == rest[k];
    if rest != [] && !Finds(w.next, now, None) && !InSlot(w, created, now) {
      LaterWindowDecides(w, rest, created, now);
    }
  }

  /** A window in front that lets the search go on does not change which of the others decides. */
  lemma DecidesBehind(w: Window, rest: seq<Window>, i: nat, created: int, now: int)
    requires i < |rest| && !Finds(w.next, now, None)
    ensures Decides([w] + rest, i + 1, created, now) <==> Decides(rest, i, created, now)
  {
    var all := [w] + rest;
    assert all[0] == w && all[i + 1] == rest[i];
    forall k | 0 <= k < i
      ensures all[k + 1] == rest[k]
    {
    }
    if Decides(all, i + 1, created, now) {
      forall k | 0 <= k < i
        ensures !Finds(rest[k].next, now, None)
      {
        assert all[k + 1] == rest[k];
      }
    }
    if Decides(rest, i, created, now) {
      forall k | 0 <= k < i + 1
        ensures !Finds(all[k].next, now, None)
      {
        if k > 0 { assert all[k] == rest[k - 1]; }
      }
    }
  }

  lemma LaterWindowDecides(w: Window, rest: seq<Window>, created: int, now: int)
    requires rest != [] && !Finds(w.next, now, None) && !InSlot(w, created, now)
    ensures Healthy([w] + rest, Some(created), now) <==> Healthy(rest, Some(created), now)
  {
    var all := [w] + rest;
    assert all[0] == w && !Decides(all, 0, created, now);
    forall i | 0 <= i < |rest|
      ensures Decides(all, i + 1, created, now) <==> Decides(rest, i, created, now)
    {
      DecidesBehind(w, rest, i, created, now);
    }
    if i :| 0 <= i < |all| && InSlot(all[i], created, now) && forall k :: 0 <= k < i ==>
      !Finds(all[k].next, now, None) {
      assert Decides(all, i, created, now) && Decides(rest, i - 1, created, now);
    }
    if i :| 0 <= i < |rest| && InSlot(rest[i], created, now) && forall k :: 0 <= k < i ==>
      !Finds(rest[k].next, now, None) {
      assert Decides(rest, i, created, now) && Decides(all, i + 1, created, now);
    }
  }

  /** When no search can fail, any matching window is enough, whatever its place in the list. */
  lemma HealthyIff(windows: seq<Window>, latest: Option<int>, now: int)
    requires forall w :: w in windows ==> Succeeds(w.next, now)
    ensures Healthy(windows, latest, now)
       <==> windows == [] || (latest.Some? && exists w :: w in windows && InSlot(w, latest.value, now))
  {
    forall k | 0 <= k < |windows|
      ensures !Finds(windows[k].next, now, None)
    {
      assert windows[k] in windows && Succeeds(windows[k].next, now);
      var p :| Finds(windows[k].next, now, Some(p));
      if Finds(windows[k].next, now, None) {
        FindsUnique(windows[k].next, now, None, Some(p));
      }
    }
  }

  /**
   * The check's own message promises an alarm when the collection has no backup. The lookup of an empty collection does
   * not fail, so the collection is reported healthy if and only if a window is open and no search before it fails.
   */
  lemma EmptyCollectionHealthyIff(windows: seq<Window>, now: int)
    requires windows != [] && Horizon(now) >= ZERO_TIME && forall w :: w in windows ==> IsSchedule(w.next)
    ensures Healthy(windows, FindLatestVersion([], false), now)
       <==> exists i :: 0 <= i < |windows| && Open(windows[i], now) && forall k :: 0 <= k < i ==>
         !Finds(windows[k].next, now, None)
  {
    forall i | 0 <= i < |windows|
      ensures InSlot(windows[i], ZERO_TIME, now) <==> Open(windows[i], now)
    {
      assert windows[i] in windows;
      ZeroTimeInSlotIff(windows[i], now);
    }
  }

  lemma ZeroTimeInSlotIff(w: Window, now: int)
    requires IsSchedule(w.next) && Horizon(now) >= ZERO_TIME
    ensures InSlot(w, ZERO_TIME, now) <==> Open(w, now)
  {
    if p :| Finds(w.next, now, Some(p)) {
      OpenByPredecessor(w, now, p);
      forall found | Finds(w.next, now, Some(found))
        ensures found == p
      {
        FindsUnique(w.next, now, Some(p), Some(found));
      }
    } else {
      NextIsLeast(w.next, now - SECOND, 0);
      if Open(w, now) {
        OpenIsFound(w, now);
      }
    }
  }

  lemma OpenIsFound(w: Window, now: int)
    requires IsSchedule(w.next) && Open(w, now)
    ensures Succeeds(w.next, now)
  {
    var s :| IsRun(w.next, s) && Horizon(now) < s && s + SECOND <= now < s + w.duration;
    NextIsLeast(w.next, now - SECOND, s);
    var p := LatestBefore(w.next, s, Reference(w.next, now));
    assert Finds(w.next, now, Some(p));
  }

  /** Going from run to run one gets from `s` to the last one before `ref`. */
  lemma LatestBefore(next: Next, s: int, ref: int) returns (p: int)
    requires IsSchedule(next) && IsRun(next, s) && s < ref
    ensures IsPrevious(next, ref, p) && s <= p
    decreases ref - s
  {
    NextIsLeast(next, s, s);
    if next(s) < ref {
      p := LatestBefore(next, next(s), ref);
    } else {
      p := s;
      forall r | IsRun(next, r) && r < ref
        ensures r <= s
      {
        NextIsLeast(next, s, r);
      }
    }
  }

  /** Concretely: in the first minute of a daily window the check of an empty collection is green. */
  lemma EmptyCollectionReportedHealthy()
    ensures Healthy([Window(Every(1440), MINUTE)], FindLatestVersion([], false), SECOND)
  {
    var w := Window(Every(1440), MINUTE);
    EveryIsSchedule(1440);
    RunsOfEvery(1440, 0);
    assert IsRun(w.next, 0);
    EmptyCollectionHealthyIff([w], SECOND);
    assert Open([w][0], SECOND);
  }

  /** The search at `now` sees the run that the last second has not overtaken. */
  lemma PreviousAt(next: Next, p: int, q: int, now: int, found: int)
    requires IsSchedule(next) && IsRun(next, q) && IsPrevious(next, q, p) && p + SECOND <= now < q + SECOND
    requires Finds(next, now, Some(found))
    ensures found == p
  {
    NextIsLeast(next, now - SECOND, q);
    NextIsLeast(next, now - SECOND, found);
  }

  /**
   * A backup made in the window of run `p`, no later than the next run `q`, keeps the check green until `q`'s own
   * window ends, also when windows overlap.
   */
  lemma HealthGreen(w: Window, p: int, q: int, t: int, now: int)
    requires IsSchedule(w.next) && IsRun(w.next, q) && IsPrevious(w.next, q, p) && w.duration >= SECOND
    requires p + SECOND <= t < p + w.duration && t <= q && t <= now < q + w.duration
    requires Succeeds(w.next, now)
    ensures Healthy([w], Some(t), now)
  {
    var found :| Finds(w.next, now, Some(found));
    if now < q + SECOND {
      PreviousAt(w.next, p, q, now, found);
    } else {
      OpenByPredecessor(w, now, found);
      NextIsLeast(w.next, now - SECOND, q);
      assert q <= found;
    }
    assert InSlot([w][0], t, now);
  }

  /** With no newer backup it is red from the end of `q`'s window until the run after `q` is a second old. */
  lemma HealthRed(w: Window, q: int, r: int, t: int, now: int)
    requires IsSchedule(w.next) && IsRun(w.next, r) && IsPrevious(w.next, r, q) && w.duration >= SECOND
    requires t <= q && q + w.duration <= now < r + SECOND
    ensures !Healthy([w], Some(t), now)
  {
    forall found | Finds(w.next, now, Some(found))
      ensures found == q
    {
      PreviousAt(w.next, q, r, now, found);
    }
    assert !InSlot([w][0], t, now);
  }
}

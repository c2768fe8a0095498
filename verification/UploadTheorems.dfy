/** What the protocol guarantees in every admissible run, and where its assumptions are needed. */
module UploadTheorems {
  import opened Versions
  import opened Quota
  import opened Int64
  import opened Options
  import opened UploadProtocol
  import opened UploadSafety
  import opened UploadWindow
  import opened Substrings
  import Naming
  import Stream
  import LocksService

  /** Every collection has a lock of its own. */
  lemma LocksApart(c: string, d: string)
    ensures LockId(c) == LockId(d) ==> c == d
  {
    assert LockId(c)[|"collection:"|..] == c && LockId(d)[|"collection:"|..] == d;
  }

  /** At most one request holds a collection, and the row of its unexpired lock is in the table. */
  lemma MutualExclusion(cfg: Config, s: State, i: nat, j: nat)
    requires Sound(cfg) && Reachable(cfg, s) && i in s.clients && Holds(s.clients[i].phase)
    ensures j in s.clients && Holds(s.clients[j].phase) && s.clients[j].collection == s.clients[i].collection ==> i == j
    ensures LockId(s.clients[i].collection) in s.locks
    ensures s.now <= s.locks[LockId(s.clients[i].collection)] == s.clients[i].expires
  {
    ReachableKeeps(cfg, s);
  }

  /** No clean-up has failed to delete a version that the collection still lists. */
  ghost predicate Undisturbed(s: State, c: string) {
    forall v :: v in Rows(s.table, c) ==> v.id !in s.stuck
  }

  /**
   * Whenever no upload to a collection is in progress its live versions are within all its limits; while one is, there
   * may be one too many. This covers every interleaving, failed copies, cancellations, panics, failed registrations and
   * failed deletions. The live versions are all of them unless a row could not be deleted.
   */
  lemma LimitsHold(cfg: Config, s: State, c: string)
    requires Sound(cfg) && Reachable(cfg, s) && c in cfg.collections
    ensures var spec, live := cfg.collections[c], Live(s, c);
            && |live| <= spec.maxBackups + 1
            && (Quiet(s, c) ==>
                  && |live| <= spec.maxBackups
                  && (live != [] ==> Sum(Excess(spec.maxOneVersion), live) <= ExtraSpace(spec))
                  && Sum(Size(), live) <= spec.maxCollection)
    ensures Undisturbed(s, c) ==> Live(s, c) == Rows(s.table, c)
  {
    ReachableKeeps(cfg, s);
    assert CollectionOk(cfg, s, c);
    if Quiet(s, c) {
      LimitedTotal(cfg.collections[c], Live(s, c));
    } else {
      var i :| i in s.clients && s.clients[i].collection == c && Holds(s.clients[i].phase);
      assert ClientOk(cfg, s, i);
    }
    if Undisturbed(s, c) { SurvivorsAll(Rows(s.table, c), s.stuck); }
  }

  /** What an earlier clean-up failed to delete is doomed again by every later plan. */
  lemma LeftoversAreDoomed(cfg: Config, s: State, i: nat, v: UploadedVersion)
    requires Sound(cfg) && Reachable(cfg, s) && i in s.clients && s.clients[i].phase.Planned?
    requires v in Rows(s.table, s.clients[i].collection) && v.id in s.stuck
    ensures v in s.clients[i].phase.doomed
  {
    ReachableKeeps(cfg, s);
    assert ClientOk(cfg, s, i);
    var c := s.clients[i].collection;
    NothingPending(cfg.collections[c], Rows(s.table, c), s.stuck);
    StuckIsDoomed(cfg.collections[c], Rows(s.table, c), s.stuck, s.clients[i].phase.doomed, v);
  }

  lemma StuckIsDoomed(spec: Spec, rows: seq<UploadedVersion>, stuck: set<Uuid>, doomed: seq<UploadedVersion>,
      v: UploadedVersion)
    requires NewestStay(spec, rows, stuck) && IsPlan(spec, rows, doomed) && v in rows && v.id in stuck
    ensures v in doomed
  {
    var k :| 0 <= k < |rows| && rows[k] == v;
    assert doomed[k] == rows[k];
  }

  lemma ProductMonotone(m: int, n: int, k: int)
    requires m <= n && 0 <= k
    ensures m * k <= n * k
  {
  }

  lemma LimitedTotal(spec: Spec, rows: seq<UploadedVersion>)
    requires SpecFits(spec) && Limits(spec, rows)
    ensures Sum(Size(), rows) <= spec.maxCollection
  {
    TotalWithinExcess(spec.maxOneVersion, rows);
    if rows != [] {
      ProductMonotone(|rows|, spec.maxBackups, spec.maxOneVersion);
    }
  }

  /**
   * The sum-of-versions health check passes whenever no upload is in progress and no row is stuck, however the rows are
   * listed.
   */
  lemma SumHealthy(cfg: Config, s: State, c: string, listed: seq<UploadedVersion>)
    requires Sound(cfg) && Reachable(cfg, s) && c in cfg.collections && Quiet(s, c) && Undisturbed(s, c)
    requires multiset(listed) == multiset(Rows(s.table, c))
    ensures Wrap(Sum(Size(), listed)) == Sum(Size(), listed) <= cfg.collections[c].maxCollection
  {
    LimitsHold(cfg, s, c);
    SumPermutation(Size(), listed, Rows(s.table, c));
    SizesNonNegative(cfg, s, c);
  }

  lemma SizesNonNegative(cfg: Config, s: State, c: string)
    requires Sound(cfg) && Reachable(cfg, s) && c in cfg.collections && Undisturbed(s, c)
    ensures 0 <= Sum(Size(), Rows(s.table, c))
  {
    ReachableKeeps(cfg, s);
    assert CollectionOk(cfg, s, c);
    SumOfParts(Size(), Rows(s.table, c));
  }

  /**
   * Each registered version has a path of its own and, unless a clean-up failed to delete its row, is stored there with
   * the content and size it was accepted with.
   */
  lemma RegistryAgreesWithStorage(cfg: Config, s: State, u: UploadedVersion, v: UploadedVersion)
    requires Sound(cfg) && Reachable(cfg, s) && u in s.table && v in s.table
    ensures v.id !in s.stuck ==>
              && Path(v) in s.blobs && v.filesize == |s.blobs[Path(v)]|
              && v.id in s.accepted && s.blobs[Path(v)] == s.accepted[v.id]
    ensures u != v ==> Path(u) != Path(v)
  {
    ReachableKeeps(cfg, s);
    ReachableTableConfigured(cfg, s);
    RowsMember(s.table, v.collectionId, v);
    RowsMember(s.table, u.collectionId, u);
    assert CollectionOk(cfg, s, v.collectionId) && CollectionOk(cfg, s, u.collectionId);
    if u.collectionId != v.collectionId {
      PathElsewhere(u.collectionId, u.filename, v.collectionId, v.filename);
    } else if u != v {
      PathOfOther(cfg, u.collectionId, u, v);
    }
  }

  /**
   * After `k` registrations and no lost one, the live versions carry exactly the last `min(k, MaxBackupsCount)` numbers
   * up to `k`.
   */
  lemma SlidingWindow(cfg: Config, s: State, c: string)
    requires Sound(cfg) && Reachable(cfg, s) && c in cfg.collections && Quiet(s, c) && c !in s.lost
    ensures var max, live, k := cfg.collections[c].maxBackups, Live(s, c), Registered(s, c);
            && |live| == (if k < max then k else max)
            && forall j :: 0 <= j < |live| ==> live[j].versionNumber == k - |live| + 1 + j
  {
    ReachableWindows(cfg, s);
  }

  /**
   * A version about to be registered carries the number after the last registration, so no number is used twice. Lost
   * registrations do not break this as long as the collection keeps at least two versions.
   */
  lemma NumbersNeverReused(cfg: Config, s: State, i: nat)
    requires Sound(cfg) && Reachable(cfg, s) && i in s.clients && s.clients[i].collection in cfg.collections
    requires HasVersion(s.clients[i].phase) && !s.clients[i].phase.Discarding?
    requires cfg.collections[s.clients[i].collection].maxBackups >= 2 || s.clients[i].collection !in s.lost
    ensures s.clients[i].phase.version.versionNumber == Registered(s, s.clients[i].collection) + 1
  {
    ReachableKeeps(cfg, s);
    ReachableWindows(cfg, s);
    assert ClientOk(cfg, s, i) && Window(cfg.collections[s.clients[i].collection], s, s.clients[i].collection);
  }

  /**
   * The clean-up that follows a lost registration leaves the next number where it was, except when the collection keeps
   * a single version and has it: then the registry is emptied and numbering starts over.
   */
  lemma LostRegistrationKeepsNumberIff(spec: Spec, rows: seq<UploadedVersion>, doomed: seq<UploadedVersion>)
    requires spec.maxBackups >= 1 && Ascending(rows) && IsPlan(spec, rows, doomed) && |rows| <= spec.maxBackups
    requires forall v :: v in rows ==> v.versionNumber >= 1
    ensures HighestNumber(rows[|doomed|..]) == HighestNumber(rows) <==> (spec.maxBackups >= 2 || rows == [])
  {
    if rows != [] {
      AscendingHighest(rows);
      if spec.maxBackups >= 2 {
        AscendingHighest(rows[|doomed|..]);
      }
    }
  }

  lemma AscendingHighest(rows: seq<UploadedVersion>)
    requires Ascending(rows) && rows != []
    ensures HighestNumber(rows) == rows[|rows| - 1].versionNumber
  {
    assert rows[|rows| - 1] in rows;
  }

  /**
   * Overflow does no harm: no sum or difference of the planning leaves int64. The product wraps exactly from 2^63 on,
   * and then the difference undoes it.
   */
  ghost predicate PlanFits(spec: Spec, doomed: seq<UploadedVersion>, listed: seq<UploadedVersion>) {
    var w := ExcessExcept(spec.maxOneVersion, Ids(doomed));
    && (forall k :: 0 <= k <= |listed| ==> Fits(Sum(w, listed[..k])))
    && (Wrap(spec.maxBackups * spec.maxOneVersion) == spec.maxBackups * spec.maxOneVersion
        <==> spec.maxBackups * spec.maxOneVersion < TWO_63)
    && Fits(ExtraSpace(spec)) && ExtraSpace64(spec) == ExtraSpace(spec) && Fits(ExtraSpace(spec) - Sum(w, listed))
    && (ExtraSpace(spec) >= 0 ==> Fits(ExtraSpace(spec) - Sum(w, listed) + spec.maxOneVersion))
  }

  /**
   * The "corrupted collection" branch is taken if and only if the configuration has negative extra space; otherwise the
   * limit is the exact one and lies between one version and the collection.
   */
  ghost predicate PlanTight(spec: Spec, rows: seq<UploadedVersion>, v: UploadedVersion, doomed: seq<UploadedVersion>,
      listed: seq<UploadedVersion>)
    requires |doomed| <= |rows|
  {
    var next := QuotaPhase(spec, v, doomed, listed);
    && (next.Copying? <==> ExtraSpace(spec) >= 0)
    && (next.Copying? ==>
          && spec.maxOneVersion <= next.limit <= spec.maxCollection
          && forall size :: size <= next.limit <==>
               Sum(Excess(spec.maxOneVersion), rows[|doomed|..]) + Above(size, spec.maxOneVersion) <= ExtraSpace(spec))
  }

  ghost predicate ExactPlan(spec: Spec, rows: seq<UploadedVersion>, v: UploadedVersion, doomed: seq<UploadedVersion>,
      listed: seq<UploadedVersion>)
    requires |doomed| <= |rows|
  {
    PlanFits(spec, doomed, listed) && PlanTight(spec, rows, v, doomed, listed)
  }

  lemma PlanIsTight(spec: Spec, rows: seq<UploadedVersion>, v: UploadedVersion, doomed: seq<UploadedVersion>,
      listed: seq<UploadedVersion>)
    requires SpecFits(spec) && doomed <= rows && Limits(spec, rows[|doomed|..]) && multiset(listed) == multiset(rows)
    requires IdsDistinct(rows)
    ensures PlanTight(spec, rows, v, doomed, listed)
  {
    QuotaStep(spec, rows, listed, doomed);
    var next := QuotaPhase(spec, v, doomed, listed);
    if next.Copying? {
      forall size
        ensures size <= next.limit
                <==> Sum(Excess(spec.maxOneVersion), rows[|doomed|..]) + Above(size,
                spec.maxOneVersion) <= ExtraSpace(spec)
      {
        assert size <= next.limit <==> Affords(spec, rows, doomed, size);
      }
    }
  }

  /** Every plan made in a reachable state is exact. */
  lemma PlanningIsExact(cfg: Config, s: State, i: nat, listed: seq<UploadedVersion>)
    requires Sound(cfg) && Reachable(cfg, s)
    requires i in s.clients && s.clients[i].phase.Planned? && s.clients[i].collection in cfg.collections
    requires multiset(listed) == multiset(Rows(s.table, s.clients[i].collection))
    ensures var rows, ph := Rows(s.table, s.clients[i].collection), s.clients[i].phase;
            |ph.doomed| <= |rows|
              && ExactPlan(cfg.collections[s.clients[i].collection], rows, ph.version, ph.doomed, listed)
  {
    ReachableKeeps(cfg, s);
    PlanningKept(cfg, s, i, listed);
  }

  lemma PlanningKept(cfg: Config, s: State, i: nat, listed: seq<UploadedVersion>)
    requires Sound(cfg) && Inv(cfg, s)
    requires i in s.clients && s.clients[i].phase.Planned? && s.clients[i].collection in cfg.collections
    requires multiset(listed) == multiset(Rows(s.table, s.clients[i].collection))
    ensures var rows, ph := Rows(s.table, s.clients[i].collection), s.clients[i].phase;
            |ph.doomed| <= |rows|
              && ExactPlan(cfg.collections[s.clients[i].collection], rows, ph.version, ph.doomed, listed)
  {
    var c, ph := s.clients[i].collection, s.clients[i].phase;
    assert ClientOk(cfg, s, i) && CollectionOk(cfg, s, c);
    RowIdsDistinct(cfg, s, c);
    NothingPending(cfg.collections[c], Rows(s.table, c), s.stuck);
    KeptWithinLimits(cfg.collections[c], Rows(s.table, c), s.stuck);
    PlanIsTight(cfg.collections[c], Rows(s.table, c), ph.version, ph.doomed, listed);
    SumsFit(cfg.collections[c], Rows(s.table, c), listed, ph.doomed);
  }

  lemma PrefixSums(w: UploadedVersion -> int, listed: seq<UploadedVersion>, k: nat)
    requires k <= |listed| && forall v :: v in listed ==> 0 <= w(v)
    ensures 0 <= Sum(w, listed[..k]) <= Sum(w, listed)
  {
    assert listed == listed[..k] + listed[k..];
    SumConcat(w, listed[..k], listed[k..]);
    SumOfParts(w, listed[..k]);
    SumOfParts(w, listed[k..]);
  }

  lemma SumsFit(spec: Spec, rows: seq<UploadedVersion>, listed: seq<UploadedVersion>, doomed: seq<UploadedVersion>)
    requires SpecFits(spec) && doomed <= rows && Limits(spec, rows[|doomed|..]) && multiset(listed) == multiset(rows)
    requires IdsDistinct(rows)
    ensures PlanFits(spec, doomed, listed)
  {
    var w := ExcessExcept(spec.maxOneVersion, Ids(doomed));
    assert doomed == rows[..|doomed|];
    ExcessOfRetained(spec.maxOneVersion, rows, listed, |doomed|);
    SumOfParts(Excess(spec.maxOneVersion), rows[|doomed|..]);
    ExtraSpaceExact(spec);
    ProductMonotone(0, spec.maxBackups, spec.maxOneVersion);
    var sum := Sum(w, listed);
    assert 0 <= sum && (sum == 0 || sum <= ExtraSpace(spec));
    forall k | 0 <= k <= |listed|
      ensures Fits(Sum(w, listed[..k]))
    {
      PrefixSums(w, listed, k);
    }
  }

  /**
   * The copy that follows: as long as the collection leaves one buffer of room below 2^63, its running total cannot
   * overflow.
   */
  lemma CopyNeverOverflows(cfg: Config, s: State, i: nat, turns: seq<Stream.Turn>)
    requires Sound(cfg) && Reachable(cfg, s) && i in s.clients && s.clients[i].phase.Copying?
             && s.clients[i].collection in cfg.collections
    requires cfg.collections[s.clients[i].collection].maxCollection + 1024 * 1024 < TWO_63
    requires forall t :: t in turns ==> |t.data| <= BUFFER_LEN
    ensures Fits(Stream.Copy(Stream.StandardChain(s.clients[i].phase.limit), turns, BUFFER_LEN).0.total)
  {
    ReachableKeeps(cfg, s);
    assert ClientOk(cfg, s, i);
    var limit := s.clients[i].phase.limit;
    assert Stream.StandardChain(limit)[1] == Stream.QuotaMaxFileSize(limit);
    Stream.CopyWithinQuota(Stream.StandardChain(limit), turns, limit, BUFFER_LEN);
  }

  /** The steps by which a second request tries to take a lock at the present time. */
  function Takeover(cfg: Config, s: State, j: nat): Option<State>
    requires Configured(cfg)
  {
    var s1 := Step(cfg, s, Act(j, CheckLock(s.now, true)));
    if s1.None? then None
    else
      var s2 := Step(cfg, s1.value, CleanUp(s.now));
      if s2.None? then None else Step(cfg, s2.value, Act(j, InsertLock(s.now, true)))
  }

  lemma TakeoverExact(cfg: Config, s: State, i: nat, j: nat)
    requires Configured(cfg) && i in s.clients && j in s.clients && i != j && s.clients[j].collection in cfg.collections
    requires s.clients[j].phase.Arrived? && s.clients[i].collection == s.clients[j].collection
    requires var id := LockId(s.clients[j].collection); id in s.locks && s.locks[id] == s.clients[i].expires
    ensures var t := Takeover(cfg, s, j);
            && (t.Some? ==> t.value.clients[i] == s.clients[i] && j in t.value.clients)
            && (t.Some? && t.value.clients[j].phase.Locked? <==> s.clients[i].expires < s.now)
            && (t.Some? ==> t.value.clients[j].phase.Locked? || t.value.clients[j].phase.Finished?)
  {
    var s1 := CheckLockStep(s, j, s.now, true).value;
    assert Step(cfg, s, Act(j, CheckLock(s.now, true))) == Some(s1);
    var s2 := s1.(locks := LocksService.Unexpired(s1.locks, s.now));
    assert Step(cfg, s1, CleanUp(s.now)) == Some(s2);
    assert Takeover(cfg, s, j) == InsertLockStep(s2, j, s.now, true, cfg.lockTime);
  }

  /**
   * The holder's own punctuality is what exclusion rests on: a second request gets in if and only if the lock has
   * expired.
   */
  lemma ExclusionBrokenIff(cfg: Config, s: State, i: nat, j: nat)
    requires Configured(cfg) && LocksOk(s) && i in s.clients && j in s.clients && i != j
    requires Holds(s.clients[i].phase) && s.clients[j].phase.Arrived?
    requires s.clients[i].collection == s.clients[j].collection && s.clients[j].collection in cfg.collections
    ensures (var t := Takeover(cfg, s, j);
             t.Some? && {i, j} <= t.value.clients.Keys && Holds(t.value.clients[i].phase)
               && Holds(t.value.clients[j].phase))
       <==> s.clients[i].expires < s.now
  {
    TakeoverExact(cfg, s, i, j);
  }

  /**
   * A discarded upload spares the blob of a registered version if and only if the file name template mentions the
   * version; without it every failed upload deletes the blob of a registered one.
   */
  lemma DiscardSparesRowsIff(spec: Spec, c: string, s: State, i: nat, r: UploadedVersion)
    requires i in s.clients && s.clients[i].phase.Discarding? && s.clients[i].phase.rowGone
    requires Named(spec, c, r) && Named(spec, c, s.clients[i].phase.version)
             && r.versionNumber < s.clients[i].phase.version.versionNumber
    requires Path(r) in s.blobs
    ensures Path(r) in DeleteBlobStep(s, i, true).value.blobs <==> Contains(spec.template, Naming.VERSION_MARK)
  {
    var v := s.clients[i].phase.version;
    if Contains(spec.template, Naming.VERSION_MARK) {
      if Path(r) == Path(v) {
        assert Path(r)[|c| + 1..] == r.filename && Path(v)[|c| + 1..] == v.filename;
        Naming.FilenameInjective(spec.template, r.versionNumber, v.versionNumber);
      }
    } else {
      var k := Naming.IndexFrom(spec.template, Naming.VERSION_MARK, 0);
      assert k == -1;
      assert r.filename == spec.template == v.filename;
    }
  }
}

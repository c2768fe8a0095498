/** What every step of the upload protocol keeps, and what follows for every run. */
module UploadSafety {
  import opened Versions
  import opened Quota
  import opened Int64
  import opened Options
  import opened UploadProtocol
  import opened Substrings
  import Naming
  import Rotation
  import Stream

  /** Configurations under which the arithmetic is exact and paths tell versions apart. */
  ghost predicate Sound(cfg: Config) {
    forall c :: c in cfg.collections ==>
      && '/' !in c
      && SpecFits(cfg.collections[c])
      && Contains(cfg.collections[c].template, Naming.VERSION_MARK)
  }

  /** The collection's limits: the number of versions, and what they take above the single-version limit. */
  ghost predicate Limits(spec: Spec, rows: seq<UploadedVersion>) {
    && |rows| <= spec.maxBackups
    && (rows != [] ==> Sum(Excess(spec.maxOneVersion), rows) <= ExtraSpace(spec))
  }

  ghost predicate Named(spec: Spec, c: string, v: UploadedVersion) {
    && v.collectionId == c
    && v.versionNumber >= 1
    && v.filename == Naming.Filename(spec.template, v.versionNumber)
  }

  /** The store holds, at the version's path, the content it was accepted with, and the recorded size is its length. */
  ghost predicate StoredAs(s: State, v: UploadedVersion) {
    && v.id in s.accepted
    && v.filesize == |s.accepted[v.id]|
    && Path(v) in s.blobs
    && s.blobs[Path(v)] == s.accepted[v.id]
  }

  ghost predicate RowsOk(cfg: Config, s: State, c: string)
    requires c in cfg.collections
  {
    && Ascending(Rows(s.table, c))
    && forall v :: v in Rows(s.table, c) ==> Named(cfg.collections[c], c, v) && (v.id !in s.stuck ==> StoredAs(s, v))
  }

  /** `v` is the next version after `rows`. */
  ghost predicate IsNext(spec: Spec, c: string, rows: seq<UploadedVersion>, v: UploadedVersion) {
    Named(spec, c, v) && v.versionNumber == HighestNumber(rows) + 1
  }

  /** How many of `n` rows the rotation dooms. */
  function DoomedCount(spec: Spec, n: nat): int {
    if n < spec.maxBackups then 0 else n - spec.maxBackups + 1
  }

  ghost predicate IsPlan(spec: Spec, rows: seq<UploadedVersion>, doomed: seq<UploadedVersion>) {
    doomed <= rows && |doomed| == DoomedCount(spec, |rows|)
  }

  /** A new version of `size` bytes fits beside the rows that stay. */
  ghost predicate Affords(spec: Spec, rows: seq<UploadedVersion>, doomed: seq<UploadedVersion>, size: int) {
    && |doomed| <= |rows|
    && Sum(Excess(spec.maxOneVersion), rows[|doomed|..]) + Above(size, spec.maxOneVersion) <= ExtraSpace(spec)
  }

  /** None of the rows in `gone` is among the newest, which the next plan keeps. */
  ghost predicate NewestStay(spec: Spec, rows: seq<UploadedVersion>, gone: set<Uuid>) {
    forall k :: DoomedCount(spec, |rows|) <= k < |rows| ==> rows[k].id !in gone
  }

  /** Without the rows in `gone` the collection is within its limits, and the next plan dooms every one of them. */
  ghost predicate Settled(spec: Spec, rows: seq<UploadedVersion>, gone: set<Uuid>) {
    Limits(spec, Survivors(rows, gone)) && NewestStay(spec, rows, gone)
  }

  /** What the request is still going to delete from the registry. */
  function Pending(ph: Phase): seq<UploadedVersion> {
    match ph
    case Discarding(_, doomed, _) => doomed
    case Cleaning(head, rest, rowGone) => if rowGone then rest else [head] + rest
    case _ => []
  }

  /** The collection will be settled when the request has done its deletions, whether they succeed or not. */
  ghost predicate Orderly(spec: Spec, rows: seq<UploadedVersion>, stuck: set<Uuid>, pending: seq<UploadedVersion>) {
    && Settled(spec, rows, stuck + Ids(pending))
    && Ascending(pending) && (forall v :: v in pending ==> v in rows)
    && |Survivors(rows, stuck)| <= spec.maxBackups + 1
  }

  /** What a request relies on in each phase. */
  ghost predicate PhaseOk(cfg: Config, s: State, c: string, ph: Phase)
    requires c in cfg.collections
  {
    var spec, rows := cfg.collections[c], Rows(s.table, c);
    && (Holds(ph) ==> Orderly(spec, rows, s.stuck, Pending(ph)))
    && match ph
       case Numbered(v) => IsNext(spec, c, rows, v)
       case Planned(v, doomed) => IsNext(spec, c, rows, v) && IsPlan(spec, rows, doomed)
       case Copying(v, doomed, limit) =>
         && IsNext(spec, c, rows, v) && IsPlan(spec, rows, doomed)
         && spec.maxOneVersion <= limit <= spec.maxCollection
         && forall size :: 0 <= size <= limit ==> Affords(spec, rows, doomed, size)
       case Stored(v, doomed) =>
         && IsNext(spec, c, rows, v) && IsPlan(spec, rows, doomed)
         && Affords(spec, rows, doomed, v.filesize) && StoredAs(s, v)
       case Discarding(v, _, _) => IsNext(spec, c, rows, v)
       case Cleaning(head, _, rowGone) =>
         rowGone ==> Named(spec, c, head) && forall v :: v in rows && v.id !in s.stuck ==>
           v.versionNumber != head.versionNumber
       case _ => true
  }

  predicate HasVersion(ph: Phase) {
    ph.Numbered? || ph.Planned? || ph.Copying? || ph.Stored? || ph.Discarding?
  }

  /** A holder's row is in the lock table, and no two requests hold the same collection. */
  ghost predicate LocksOk(s: State) {
    && (forall i :: i in s.clients && Holds(s.clients[i].phase) ==>
          var id := LockId(s.clients[i].collection); id in s.locks && s.locks[id] == s.clients[i].expires)
    && (forall i, j :: i in s.clients && j in s.clients && Holds(s.clients[i].phase) && Holds(s.clients[j].phase) ==>
          s.clients[i].collection == s.clients[j].collection ==> i == j)
  }

  /** Ids identify rows, and the version of a request is registered nowhere yet. */
  ghost predicate IdsOk(s: State) {
    && (forall u, v :: u in s.table && v in s.table && u.id == v.id ==> u == v)
    && (forall v :: v in s.table ==> v.id in s.usedIds)
    && s.accepted.Keys <= s.usedIds && s.stuck <= s.usedIds
    && (forall i :: i in s.clients && HasVersion(s.clients[i].phase) ==> VersionFresh(s, s.clients[i].phase))
    && (forall i, j ::
          i in s.clients && j in s.clients && i != j
          && HasVersion(s.clients[i].phase) && HasVersion(s.clients[j].phase) ==>
          s.clients[i].phase.version.id != s.clients[j].phase.version.id)
  }

  ghost predicate VersionFresh(s: State, ph: Phase)
    requires HasVersion(ph)
  {
    && ph.version.id in s.usedIds
    && (forall v :: v in s.table ==> v.id != ph.version.id)
    && ph.version.id !in s.stuck
    && (ph.Numbered? || ph.Planned? || ph.Copying? ==> ph.version.id !in s.accepted)
  }

  ghost predicate CollectionOk(cfg: Config, s: State, c: string)
    requires c in cfg.collections
  {
    RowsOk(cfg, s, c) && (Quiet(s, c) ==> Settled(cfg.collections[c], Rows(s.table, c), s.stuck))
  }

  ghost predicate ClientOk(cfg: Config, s: State, i: nat)
    requires i in s.clients
  {
    s.clients[i].collection in cfg.collections && PhaseOk(cfg, s, s.clients[i].collection, s.clients[i].phase)
  }

  ghost predicate Inv(cfg: Config, s: State) {
    && LocksOk(s)
    && IdsOk(s)
    && (forall c :: c in cfg.collections ==> CollectionOk(cfg, s, c))
    && (forall i :: i in s.clients ==> ClientOk(cfg, s, i))
  }

  // ---------------------------------------------------------------- frames

  /** Only client `i` moves, and only what belongs to its own collection changes. */
  ghost predicate Local(s: State, s': State, i: nat) {
    && i in s.clients && i in s'.clients
    && s'.clients == s.clients[i := s'.clients[i]]
    && var c := s.clients[i].collection;
       && s'.clients[i].collection == c
       && (forall d :: d != c ==> Rows(s'.table, d) == Rows(s.table, d))
       && (forall v :: v in s.table && v.collectionId != c ==> (v.id in s'.stuck <==> v.id in s.stuck))
       && (forall d, f :: d != c && '/' !in d && Naming.TargetPath(d, f) in s.blobs ==>
             Naming.TargetPath(d, f) in s'.blobs
               && s'.blobs[Naming.TargetPath(d, f)] == s.blobs[Naming.TargetPath(d, f)])
       && (forall id :: id in s.accepted ==> id in s'.accepted && s'.accepted[id] == s.accepted[id])
  }

  lemma FrameStored(s: State, s': State, i: nat, v: UploadedVersion)
    requires Local(s, s', i) && v.collectionId != s.clients[i].collection && '/' !in v.collectionId
    requires StoredAs(s, v)
    ensures StoredAs(s', v)
  {
    assert Naming.TargetPath(v.collectionId, v.filename) in s'.blobs;
  }

  lemma SettledSame(spec: Spec, rows: seq<UploadedVersion>, gone: set<Uuid>, other: set<Uuid>)
    requires forall v :: v in rows ==> (v.id in gone <==> v.id in other)
    ensures Settled(spec, rows, gone) <==> Settled(spec, rows, other)
  {
    SurvivorsSame(rows, gone, other);
  }

  lemma OrderlySame(spec: Spec, rows: seq<UploadedVersion>, stuck: set<Uuid>, other: set<Uuid>,
      pending: seq<UploadedVersion>)
    requires forall v :: v in rows ==> (v.id in stuck <==> v.id in other)
    ensures Orderly(spec, rows, stuck, pending) <==> Orderly(spec, rows, other, pending)
  {
    SettledSame(spec, rows, stuck + Ids(pending), other + Ids(pending));
    SurvivorsSame(rows, stuck, other);
  }

  lemma FrameStuck(s: State, s': State, i: nat, c: string)
    requires Local(s, s', i) && c != s.clients[i].collection
    ensures forall v :: v in Rows(s.table, c) ==> (v.id in s'.stuck <==> v.id in s.stuck)
  {
    forall v | v in Rows(s.table, c)
      ensures v in s.table && v.collectionId == c
    {
      RowsMember(s.table, c, v);
    }
  }

  lemma FrameCollection(cfg: Config, s: State, s': State, i: nat, c: string)
    requires Sound(cfg) && c in cfg.collections && Local(s, s', i) && c != s.clients[i].collection
    requires CollectionOk(cfg, s, c)
    ensures CollectionOk(cfg, s', c)
  {
    FrameStuck(s, s', i, c);
    SettledSame(cfg.collections[c], Rows(s.table, c), s.stuck, s'.stuck);
    forall v | v in Rows(s'.table, c) && v.id !in s'.stuck
      ensures StoredAs(s', v)
    {
      FrameStored(s, s', i, v);
    }
    if Quiet(s', c) {
      forall j | j in s.clients && s.clients[j].collection == c
        ensures !Holds(s.clients[j].phase)
      {
        assert s'.clients[j] == s.clients[j];
      }
    }
  }

  lemma FrameClient(cfg: Config, s: State, s': State, i: nat, j: nat)
    requires Sound(cfg) && Local(s, s', i) && j in s.clients && j != i && ClientOk(cfg, s, j)
    requires Holds(s.clients[j].phase) ==> s.clients[j].collection != s.clients[i].collection
    ensures ClientOk(cfg, s', j)
  {
    assert s'.clients[j] == s.clients[j];
    var c, ph := s.clients[j].collection, s.clients[j].phase;
    if Holds(ph) {
      FrameStuck(s, s', i, c);
      OrderlySame(cfg.collections[c], Rows(s.table, c), s.stuck, s'.stuck, Pending(ph));
    }
    if ph.Stored? {
      FrameStored(s, s', i, ph.version);
    }
  }

  /** A step of one holder keeps the invariant if it keeps what concerns that holder and its collection. */
  lemma LocalKeeps(cfg: Config, s: State, s': State, i: nat)
    requires Sound(cfg) && Inv(cfg, s) && Local(s, s', i) && Holds(s.clients[i].phase)
    requires LocksOk(s') && IdsOk(s')
    requires s.clients[i].collection in cfg.collections && CollectionOk(cfg, s', s.clients[i].collection)
             && ClientOk(cfg, s', i)
    ensures Inv(cfg, s')
  {
    forall c | c in cfg.collections
      ensures CollectionOk(cfg, s', c)
    {
      if c != s.clients[i].collection { FrameCollection(cfg, s, s', i, c); }
    }
    forall j | j in s'.clients
      ensures ClientOk(cfg, s', j)
    {
      if j != i { FrameClient(cfg, s, s', i, j); }
    }
  }

  /** A step that touches neither registry nor store only has to account for the client that moved. */
  lemma DataKept(cfg: Config, s: State, s': State)
    requires Inv(cfg, s) && LocksOk(s') && IdsOk(s')
    requires s'.table == s.table && s'.blobs == s.blobs && s'.accepted == s.accepted && s'.stuck == s.stuck
    requires forall c :: c in cfg.collections && Quiet(s', c) ==> Settled(cfg.collections[c], Rows(s.table, c), s.stuck)
    requires forall i :: i in s'.clients ==> ClientOk(cfg, s', i)
    ensures Inv(cfg, s')
  {
    forall c | c in cfg.collections
      ensures CollectionOk(cfg, s', c)
    {
      assert RowsOk(cfg, s, c);
      forall v | v in Rows(s'.table, c) && v.id !in s'.stuck
        ensures StoredAs(s', v)
      {
        assert StoredAs(s, v);
      }
    }
  }

  /** The lock of a client that moves without touching the lock table. */
  lemma LocksKept(s: State, s': State, i: nat)
    requires LocksOk(s) && i in s.clients && i in s'.clients && s'.clients == s.clients[i := s'.clients[i]]
    requires s'.locks == s.locks
    requires s'.clients[i].collection == s.clients[i].collection && s'.clients[i].expires == s.clients[i].expires
    requires Holds(s'.clients[i].phase) ==> Holds(s.clients[i].phase)
    ensures LocksOk(s')
  {
  }

  lemma IdsKept(s: State, s': State, i: nat)
    requires IdsOk(s) && i in s.clients && i in s'.clients && s'.clients == s.clients[i := s'.clients[i]]
    requires forall v :: v in s'.table ==> v in s.table
    requires s'.usedIds == s.usedIds && s'.accepted == s.accepted
    requires forall id :: id in s'.stuck ==> id in s.stuck || exists v :: v in s.table && v.id == id
    requires var ph, ph' := s.clients[i].phase, s'.clients[i].phase;
             HasVersion(ph') ==>
               && HasVersion(ph) && ph'.version.id == ph.version.id
               && (ph'.Planned? || ph'.Copying? || ph'.Numbered? ==> ph.Planned? || ph.Copying? || ph.Numbered?)
    ensures IdsOk(s')
  {
  }

  // ---------------------------------------------------------------- steps that touch neither registry nor store

  /** Steps of the environment: clients at most join, and no data changes. */
  lemma QuietDataKept(cfg: Config, s: State, s': State)
    requires Inv(cfg, s) && LocksOk(s') && IdsOk(s')
    requires s'.table == s.table && s'.blobs == s.blobs && s'.accepted == s.accepted && s'.stuck == s.stuck
    requires forall i :: i in s.clients ==> i in s'.clients && s'.clients[i] == s.clients[i]
    requires forall i :: i in s'.clients && i !in s.clients ==>
               s'.clients[i].collection in cfg.collections && s'.clients[i].phase.Arrived?
    ensures Inv(cfg, s')
  {
    forall i | i in s'.clients
      ensures ClientOk(cfg, s', i)
    {
      if i in s.clients {
        assert ClientOk(cfg, s, i);
        SamePhaseOk(cfg, s, s', s.clients[i].collection, s.clients[i].phase);
      }
    }
    forall c | c in cfg.collections && Quiet(s', c)
      ensures Settled(cfg.collections[c], Rows(s.table, c), s.stuck)
    {
      assert CollectionOk(cfg, s, c) && Quiet(s, c);
    }
    DataKept(cfg, s, s');
  }

  lemma SameIds(s: State, s': State)
    requires IdsOk(s) && s'.clients == s.clients && s'.usedIds == s.usedIds && s'.table == s.table
             && s'.accepted == s.accepted
    requires s'.stuck == s.stuck
    ensures IdsOk(s')
  {
  }

  /** Expired rows go, and no holder's row is expired. */
  lemma CleanUpKeepsLocks(cfg: Config, s: State, at: int)
    requires Configured(cfg) && LocksOk(s) && Timely(s) && Step(cfg, s, CleanUp(at)).Some?
    ensures LocksOk(Step(cfg, s, CleanUp(at)).value)
  {
  }

  lemma ArriveKeepsTables(s: State, s': State, i: nat, c: string)
    requires LocksOk(s) && IdsOk(s) && i !in s.clients
    requires s' == s.(clients := s.clients[i := Client(c, 0, Arrived)])
    ensures LocksOk(s') && IdsOk(s')
  {
  }

  lemma ArriveKeeps(cfg: Config, s: State, s': State, i: nat, c: string)
    requires Inv(cfg, s) && i !in s.clients && c in cfg.collections
    requires s' == s.(clients := s.clients[i := Client(c, 0, Arrived)])
    ensures Inv(cfg, s')
  {
    ArriveKeepsTables(s, s', i, c);
    QuietDataKept(cfg, s, s');
  }

  lemma EnvironmentKeeps(cfg: Config, s: State, s': State, a: Action)
    requires Configured(cfg) && Inv(cfg, s) && Timely(s) && !a.Act? && Step(cfg, s, a) == Some(s')
    ensures Inv(cfg, s')
  {
    match a
    case Tick(to) =>
      SameIds(s, s');
      QuietDataKept(cfg, s, s');
    case Arrive(i, c) => ArriveKeeps(cfg, s, s', i, c);
    case CleanUp(at) =>
      CleanUpKeepsLocks(cfg, s, at);
      SameIds(s, s');
      QuietDataKept(cfg, s, s');
  }

  lemma SamePhaseOk(cfg: Config, s: State, s': State, c: string, ph: Phase)
    requires s'.table == s.table && s'.blobs == s.blobs && s'.accepted == s.accepted && s'.stuck == s.stuck
    requires c in cfg.collections && PhaseOk(cfg, s, c, ph)
    ensures PhaseOk(cfg, s', c, ph)
  {
  }

  /** With nothing left to delete, orderly is settled. */
  lemma NothingPending(spec: Spec, rows: seq<UploadedVersion>, stuck: set<Uuid>)
    ensures Orderly(spec, rows, stuck, []) <==> Settled(spec, rows, stuck)
  {
    assert stuck + Ids([]) == stuck;
  }

  /** A collection that falls quiet was quiet before, or its last holder had nothing left to delete. */
  lemma FallsQuiet(cfg: Config, s: State, s': State, i: nat, c: string)
    requires i in s.clients && i in s'.clients && s'.clients == s.clients[i := s'.clients[i]] && ClientOk(cfg, s, i)
    requires s'.clients[i].collection == s.clients[i].collection && c in cfg.collections && CollectionOk(cfg, s, c)
    requires Holds(s.clients[i].phase) && !Holds(s'.clients[i].phase) ==> s.clients[i].phase.Releasing?
    requires Quiet(s', c)
    ensures Settled(cfg.collections[c], Rows(s.table, c), s.stuck)
  {
    if !Quiet(s, c) {
      var j :| j in s.clients && s.clients[j].collection == c && Holds(s.clients[j].phase);
      assert j in s'.clients && j == i;
      NothingPending(cfg.collections[c], Rows(s.table, c), s.stuck);
    }
  }

  /** A client that moves without touching registry, store or quietness. */
  lemma PlainMoveKeeps(cfg: Config, s: State, s': State, i: nat)
    requires Inv(cfg, s) && i in s.clients && i in s'.clients && s'.clients == s.clients[i := s'.clients[i]]
    requires s'.table == s.table && s'.blobs == s.blobs && s'.accepted == s.accepted && s'.stuck == s.stuck
    requires LocksOk(s') && IdsOk(s') && ClientOk(cfg, s', i)
    requires s'.clients[i].collection == s.clients[i].collection
    requires Holds(s.clients[i].phase) && !Holds(s'.clients[i].phase) ==> s.clients[i].phase.Releasing?
    ensures Inv(cfg, s')
  {
    forall j | j in s'.clients
      ensures ClientOk(cfg, s', j)
    {
      if j != i {
        assert ClientOk(cfg, s, j);
        SamePhaseOk(cfg, s, s', s.clients[j].collection, s.clients[j].phase);
      }
    }
    forall c | c in cfg.collections && Quiet(s', c)
      ensures Settled(cfg.collections[c], Rows(s.table, c), s.stuck)
    {
      assert CollectionOk(cfg, s, c) && ClientOk(cfg, s, i);
      FallsQuiet(cfg, s, s', i, c);
    }
    DataKept(cfg, s, s');
  }

  /** A client that only changes phase, into one whose demands are met. */
  ghost predicate PhaseMove(cfg: Config, s: State, s': State, i: nat) {
    && i in s.clients && i in s'.clients && s'.clients == s.clients[i := s.clients[i].(phase := s'.clients[i].phase)]
    && s'.table == s.table && s'.blobs == s.blobs && s'.accepted == s.accepted && s'.stuck == s.stuck
    && s'.usedIds == s.usedIds && s'.locks == s.locks
    && ClientOk(cfg, s', i)
    && var was, ph := s.clients[i].phase, s'.clients[i].phase;
       && (Holds(ph) <==> Holds(was))
       && (HasVersion(ph) ==> HasVersion(was) && ph.version.id == was.version.id)
       && (ph.Planned? || ph.Copying? || ph.Numbered? ==> was.Planned? || was.Copying? || was.Numbered?)
  }

  lemma PhaseMoveKeeps(cfg: Config, s: State, s': State, i: nat)
    requires Inv(cfg, s) && PhaseMove(cfg, s, s', i)
    ensures Inv(cfg, s')
  {
    LocksKept(s, s', i);
    IdsKept(s, s', i);
    PlainMoveKeeps(cfg, s, s', i);
  }

  /** Where there is no row there is no holder, so the new one is alone. */
  lemma InsertKeepsLocks(s: State, s': State, i: nat, expires: int)
    requires LocksOk(s) && i in s.clients && LockId(s.clients[i].collection) !in s.locks
    requires s'.locks == s.locks[LockId(s.clients[i].collection) := expires]
    requires s'.clients == s.clients[i := Client(s.clients[i].collection, expires, Locked)]
    ensures LocksOk(s') && Quiet(s, s.clients[i].collection)
  {
    forall j | j in s.clients && Holds(s.clients[j].phase)
      ensures LockId(s.clients[j].collection) != LockId(s.clients[i].collection)
    {
    }
  }

  lemma LockedPhaseOk(cfg: Config, s: State, c: string)
    requires c in cfg.collections && CollectionOk(cfg, s, c) && Quiet(s, c)
    ensures PhaseOk(cfg, s, c, Locked)
  {
    NothingPending(cfg.collections[c], Rows(s.table, c), s.stuck);
  }

  lemma LockGrantedKeeps(cfg: Config, s: State, s': State, i: nat, expires: int)
    requires Inv(cfg, s) && i in s.clients && s.clients[i].collection in cfg.collections && s.clients[i].phase.Checked?
    requires LockId(s.clients[i].collection) !in s.locks
    requires s' == s.(locks := s.locks[LockId(s.clients[i].collection) := expires],
                      clients := s.clients[i := Client(s.clients[i].collection, expires, Locked)])
    ensures Inv(cfg, s')
  {
    var c := s.clients[i].collection;
    IdsKept(s, s', i);
    InsertKeepsLocks(s, s', i, expires);
    assert CollectionOk(cfg, s, c);
    LockedPhaseOk(cfg, s, c);
    SamePhaseOk(cfg, s, s', c, Locked);
    PlainMoveKeeps(cfg, s, s', i);
  }

  lemma LockRefusedMove(cfg: Config, s: State, s': State, i: nat, at: int, ok: bool)
    requires i in s.clients && s.clients[i].collection in cfg.collections
    requires LockId(s.clients[i].collection) in s.locks || !ok
    requires InsertLockStep(s, i, at, ok, cfg.lockTime) == Some(s')
    ensures PhaseMove(cfg, s, s', i)
  {
  }

  lemma InsertLockKeeps(cfg: Config, s: State, s': State, i: nat, at: int, ok: bool)
    requires Sound(cfg) && Inv(cfg, s) && i in s.clients && s.clients[i].collection in cfg.collections
    requires InsertLockStep(s, i, at, ok, cfg.lockTime) == Some(s')
    ensures Inv(cfg, s')
  {
    if LockId(s.clients[i].collection) in s.locks || !ok {
      LockRefusedMove(cfg, s, s', i, at, ok);
      PhaseMoveKeeps(cfg, s, s', i);
    } else {
      LockGrantedKeeps(cfg, s, s', i, at + cfg.lockTime);
    }
  }

  lemma TakeNumberKeepsIds(s: State, s': State, i: nat, id: Uuid)
    requires IdsOk(s) && i in s.clients && i in s'.clients && s'.clients == s.clients[i := s'.clients[i]]
    requires id !in s.usedIds && s'.usedIds == s.usedIds + {id} && s'.table == s.table && s'.accepted == s.accepted
    requires s'.stuck == s.stuck
    requires s'.clients[i].phase.Numbered? && s'.clients[i].phase.version.id == id
    ensures IdsOk(s')
  {
  }

  lemma NewVersionIsNext(cfg: Config, s: State, c: string, id: Uuid)
    requires c in cfg.collections && RowsOk(cfg, s, c)
    ensures IsNext(cfg.collections[c], c, Rows(s.table, c), NewVersion(cfg.collections[c], Rows(s.table, c), c, id))
  {
    assert HighestNumber(Rows(s.table, c)) >= 0;
  }

  lemma NumberedPhaseOk(cfg: Config, s: State, s': State, i: nat, id: Uuid)
    requires i in s.clients && ClientOk(cfg, s, i) && RowsOk(cfg, s, s.clients[i].collection)
    requires TakeNumberStep(cfg.collections[s.clients[i].collection], s, i, id) == Some(s')
    ensures ClientOk(cfg, s', i)
  {
    NewVersionIsNext(cfg, s, s.clients[i].collection, id);
  }

  lemma TakeNumberKeeps(cfg: Config, s: State, s': State, i: nat, id: Uuid)
    requires Inv(cfg, s) && i in s.clients && s.clients[i].collection in cfg.collections
    requires TakeNumberStep(cfg.collections[s.clients[i].collection], s, i, id) == Some(s')
    ensures Inv(cfg, s')
  {
    LocksKept(s, s', i);
    TakeNumberKeepsIds(s, s', i, id);
    assert ClientOk(cfg, s, i) && CollectionOk(cfg, s, s.clients[i].collection);
    NumberedPhaseOk(cfg, s, s', i, id);
    PlainMoveKeeps(cfg, s, s', i);
  }

  lemma PlanPhaseOk(spec: Spec, rows: seq<UploadedVersion>, listed: seq<UploadedVersion>)
    requires spec.maxBackups >= 1 && Ascending(rows) && multiset(listed) == multiset(rows)
    ensures IsPlan(spec, rows, Rotation.Doomed(listed, spec.maxBackups))
  {
    Rotation.SortRecovers(rows, listed);
  }

  lemma PlanMove(cfg: Config, s: State, s': State, i: nat, listed: seq<UploadedVersion>)
    requires Sound(cfg) && i in s.clients && ClientOk(cfg, s, i) && RowsOk(cfg, s, s.clients[i].collection)
    requires PlanStep(cfg.collections[s.clients[i].collection], s, i, listed) == Some(s')
    ensures PhaseMove(cfg, s, s', i)
  {
    PlanPhaseOk(cfg.collections[s.clients[i].collection], Rows(s.table, s.clients[i].collection), listed);
  }

  lemma PlanKeeps(cfg: Config, s: State, s': State, i: nat, listed: seq<UploadedVersion>)
    requires Sound(cfg) && Inv(cfg, s) && i in s.clients && s.clients[i].collection in cfg.collections
    requires PlanStep(cfg.collections[s.clients[i].collection], s, i, listed) == Some(s')
    ensures Inv(cfg, s')
  {
    assert ClientOk(cfg, s, i) && CollectionOk(cfg, s, s.clients[i].collection);
    PlanMove(cfg, s, s', i, listed);
    PhaseMoveKeeps(cfg, s, s', i);
  }

  lemma RowIdsDistinct(cfg: Config, s: State, c: string)
    requires IdsOk(s) && c in cfg.collections && RowsOk(cfg, s, c)
    ensures IdsDistinct(Rows(s.table, c))
  {
    var rows := Rows(s.table, c);
    forall i, j | 0 <= i < j < |rows|
      ensures rows[i].id != rows[j].id
    {
      RowsMember(s.table, c, rows[i]);
      RowsMember(s.table, c, rows[j]);
    }
  }

  lemma SuffixExcess(spec: Spec, rows: seq<UploadedVersion>, k: nat)
    requires k <= |rows|
    ensures 0 <= Sum(Excess(spec.maxOneVersion), rows[k..]) <= Sum(Excess(spec.maxOneVersion), rows)
  {
    assert rows == rows[..k] + rows[k..];
    SumConcat(Excess(spec.maxOneVersion), rows[..k], rows[k..]);
    SumOfParts(Excess(spec.maxOneVersion), rows[..k]);
    SumOfParts(Excess(spec.maxOneVersion), rows[k..]);
  }

  /** The rows that a plan keeps are the end of the survivors. */
  lemma KeptSurvive(spec: Spec, rows: seq<UploadedVersion>, gone: set<Uuid>) returns (before: seq<UploadedVersion>)
    requires spec.maxBackups >= 1 && NewestStay(spec, rows, gone)
    ensures Survivors(rows, gone) == before + rows[DoomedCount(spec, |rows|)..]
  {
    var d := DoomedCount(spec, |rows|);
    assert rows == rows[..d] + rows[d..];
    SurvivorsConcat(rows[..d], rows[d..], gone);
    SurvivorsAll(rows[d..], gone);
    before := Survivors(rows[..d], gone);
  }

  lemma KeptWithinLimits(spec: Spec, rows: seq<UploadedVersion>, gone: set<Uuid>)
    requires spec.maxBackups >= 1 && Settled(spec, rows, gone)
    ensures Limits(spec, rows[DoomedCount(spec, |rows|)..])
  {
    var before := KeptSurvive(spec, rows, gone);
    SuffixExcess(spec, Survivors(rows, gone), |before|);
    assert Survivors(rows, gone)[|before|..] == rows[DoomedCount(spec, |rows|)..];
  }

  /** Deleting what the plan dooms settles the collection again, with exactly the newest rows. */
  lemma PlanSettles(spec: Spec, rows: seq<UploadedVersion>, stuck: set<Uuid>, doomed: seq<UploadedVersion>)
    requires spec.maxBackups >= 1 && Settled(spec, rows, stuck) && IsPlan(spec, rows, doomed) && IdsDistinct(rows)
    ensures Survivors(rows, stuck + Ids(doomed)) == rows[|doomed|..]
    ensures Settled(spec, rows, stuck + Ids(doomed))
  {
    var d, gone := |doomed|, stuck + Ids(doomed);
    KeptWithinLimits(spec, rows, stuck);
    assert rows == doomed + rows[d..];
    SurvivorsConcat(doomed, rows[d..], gone);
    SurvivorsNone(doomed, gone);
    forall k | d <= k < |rows|
      ensures rows[k].id !in gone
    {
      assert forall j :: 0 <= j < d ==> doomed[j].id == rows[j].id != rows[k].id;
    }
    SurvivorsAll(rows[d..], gone);
  }

  /**
   * The quota step: with the kept rows within the limits the machine arithmetic is exact, so the limit is the tight
   * one.
   */
  lemma QuotaStep(spec: Spec, rows: seq<UploadedVersion>, listed: seq<UploadedVersion>, doomed: seq<UploadedVersion>)
    requires SpecFits(spec) && doomed <= rows && Limits(spec, rows[|doomed|..]) && multiset(listed) == multiset(rows)
    requires IdsDistinct(rows)
    ensures var sum := Sum(ExcessExcept(spec.maxOneVersion, Ids(doomed)), listed);
            && Wrap(sum) == sum == Sum(Excess(spec.maxOneVersion), rows[|doomed|..])
            && match MaximumUpload64(spec, sum)
               case Corrupted => ExtraSpace(spec) < 0
               case Allowed(limit) =>
                 && ExtraSpace(spec) >= 0
                 && spec.maxOneVersion <= limit <= spec.maxCollection
                 && forall size :: size <= limit <==> Affords(spec, rows, doomed, size)
  {
    assert doomed == rows[..|doomed|];
    ExcessOfRetained(spec.maxOneVersion, rows, listed, |doomed|);
    SumOfParts(Excess(spec.maxOneVersion), rows[|doomed|..]);
    ExtraSpaceExact(spec);
    var used := Sum(Excess(spec.maxOneVersion), rows[|doomed|..]);
    if ExtraSpace(spec) >= 0 {
      forall size
        ensures size <= MaximumUpload64(spec, used).bytes <==> Affords(spec, rows, doomed, size)
      {
        QuotaTight(spec, used, size);
      }
    } else {
      assert rows[|doomed|..] == [];
      NegativeExtraSpaceRefuses(spec, used);
    }
  }

  /** A phase that the quota step leads to is either the release or a copy within a tight limit. */
  lemma QuotaPhaseExact(spec: Spec, rows: seq<UploadedVersion>, stuck: set<Uuid>, v: UploadedVersion,
      doomed: seq<UploadedVersion>, listed: seq<UploadedVersion>)
    requires SpecFits(spec) && Orderly(spec, rows, stuck, []) && IsPlan(spec, rows, doomed) && IdsDistinct(rows)
             && multiset(listed) == multiset(rows)
    ensures var next := QuotaPhase(spec, v, doomed, listed);
            || next == Releasing
            || (next.Copying? && next == Copying(v, doomed, next.limit)
              && spec.maxOneVersion <= next.limit <= spec.maxCollection
                && forall size :: 0 <= size <= next.limit ==> Affords(spec, rows, doomed, size))
  {
    NothingPending(spec, rows, stuck);
    KeptWithinLimits(spec, rows, stuck);
    QuotaStep(spec, rows, listed, doomed);
  }

  lemma QuotaPhaseOk(cfg: Config, s: State, c: string, v: UploadedVersion, doomed: seq<UploadedVersion>,
      listed: seq<UploadedVersion>)
    requires Sound(cfg) && IdsOk(s) && c in cfg.collections && RowsOk(cfg, s, c)
    requires PhaseOk(cfg, s, c, Planned(v, doomed)) && multiset(listed) == multiset(Rows(s.table, c))
    ensures PhaseOk(cfg, s, c, QuotaPhase(cfg.collections[c], v, doomed, listed))
  {
    RowIdsDistinct(cfg, s, c);
    QuotaPhaseExact(cfg.collections[c], Rows(s.table, c), s.stuck, v, doomed, listed);
  }

  lemma SetQuotaMove(cfg: Config, s: State, s': State, i: nat, listed: seq<UploadedVersion>)
    requires Sound(cfg) && IdsOk(s) && i in s.clients && ClientOk(cfg, s, i) && RowsOk(cfg, s, s.clients[i].collection)
    requires SetQuotaStep(cfg.collections[s.clients[i].collection], s, i, listed) == Some(s')
    ensures PhaseMove(cfg, s, s', i)
  {
    var c, ph := s.clients[i].collection, s.clients[i].phase;
    QuotaPhaseOk(cfg, s, c, ph.version, ph.doomed, listed);
    SamePhaseOk(cfg, s, s', c, s'.clients[i].phase);
  }

  lemma SetQuotaKeeps(cfg: Config, s: State, s': State, i: nat, listed: seq<UploadedVersion>)
    requires Sound(cfg) && Inv(cfg, s) && i in s.clients && s.clients[i].collection in cfg.collections
    requires SetQuotaStep(cfg.collections[s.clients[i].collection], s, i, listed) == Some(s')
    ensures Inv(cfg, s')
  {
    assert ClientOk(cfg, s, i) && CollectionOk(cfg, s, s.clients[i].collection);
    SetQuotaMove(cfg, s, s', i, listed);
    PhaseMoveKeeps(cfg, s, s', i);
  }

  lemma CheckLockMove(cfg: Config, s: State, s': State, i: nat, at: int, answered: bool)
    requires i in s.clients && ClientOk(cfg, s, i) && CheckLockStep(s, i, at, answered) == Some(s')
    ensures PhaseMove(cfg, s, s', i)
  {
  }

  /** Steps that give something up: what the request relied on before is more than it relies on afterwards. */
  lemma RetreatMove(cfg: Config, s: State, s': State, i: nat)
    requires i in s.clients && ClientOk(cfg, s, i)
    requires GiveUpStep(s, i) == Some(s') || PanicStep(s, i) == Some(s') || DiscardStep(s, i) == Some(s')
    ensures PhaseMove(cfg, s, s', i)
  {
    var c, ph' := s.clients[i].collection, s'.clients[i].phase;
    assert Pending(s.clients[i].phase) == Pending(ph') == [];
    assert PhaseOk(cfg, s, c, ph');
    SamePhaseOk(cfg, s, s', c, ph');
  }

  lemma RetreatKeeps(cfg: Config, s: State, s': State, i: nat, move: Move)
    requires Configured(cfg) && Inv(cfg, s) && i in s.clients
             && (move.CheckLock? || move.GiveUp? || move.Panic? || move.Discard?)
    requires s.clients[i].collection in cfg.collections && Moved(cfg, s, i, move) == Some(s')
    ensures Inv(cfg, s')
  {
    assert ClientOk(cfg, s, i);
    if move.CheckLock? { CheckLockMove(cfg, s, s', i, move.at, move.answered); } else { RetreatMove(cfg, s, s', i); }
    PhaseMoveKeeps(cfg, s, s', i);
  }

  /**
   * The planned deletions leave the collection orderly, also when the new version did not make it into the registry.
   */
  lemma LostOrderly(spec: Spec, rows: seq<UploadedVersion>, stuck: set<Uuid>, doomed: seq<UploadedVersion>)
    requires spec.maxBackups >= 1 && Orderly(spec, rows, stuck, []) && IsPlan(spec, rows, doomed)
    requires IdsDistinct(rows) && Ascending(rows)
    ensures Orderly(spec, rows, stuck, doomed)
  {
    NothingPending(spec, rows, stuck);
    PlanSettles(spec, rows, stuck, doomed);
    assert forall k :: 0 <= k < |doomed| ==> doomed[k] == rows[k];
  }

  lemma LostRegistrationMove(cfg: Config, s: State, s': State, i: nat)
    requires Sound(cfg) && IdsOk(s) && i in s.clients && ClientOk(cfg, s, i) && RowsOk(cfg, s, s.clients[i].collection)
    requires RegisterStep(s, i, false) == Some(s')
    ensures PhaseMove(cfg, s, s', i)
  {
    var c := s.clients[i].collection;
    RowIdsDistinct(cfg, s, c);
    LostOrderly(cfg.collections[c], Rows(s.table, c), s.stuck, s.clients[i].phase.doomed);
  }

  lemma LostRegistrationKeeps(cfg: Config, s: State, s': State, i: nat)
    requires Sound(cfg) && Inv(cfg, s) && i in s.clients && RegisterStep(s, i, false) == Some(s')
    ensures Inv(cfg, s')
  {
    assert ClientOk(cfg, s, i) && CollectionOk(cfg, s, s.clients[i].collection);
    LostRegistrationMove(cfg, s, s', i);
    PhaseMoveKeeps(cfg, s, s', i);
  }

  lemma UnlockKeepsLocks(s: State, s': State, i: nat)
    requires LocksOk(s) && i in s.clients && Holds(s.clients[i].phase)
    requires s'.clients == s.clients[i := s.clients[i].(phase := Finished)]
    requires s'.locks == s.locks || s'.locks == s.locks - {LockId(s.clients[i].collection)}
    ensures LocksOk(s')
  {
    forall j | j in s'.clients && Holds(s'.clients[j].phase)
      ensures var id := LockId(s.clients[j].collection); id in s'.locks && s'.locks[id] == s.clients[j].expires
    {
      assert j != i;
      assert LockId(s.clients[i].collection)[11..] == s.clients[i].collection;
      assert LockId(s.clients[j].collection)[11..] == s.clients[j].collection;
    }
  }

  lemma UnlockKeeps(cfg: Config, s: State, s': State, i: nat, ok: bool)
    requires Sound(cfg) && Inv(cfg, s) && i in s.clients && s.clients[i].collection in cfg.collections
    requires UnlockStep(s, i, ok) == Some(s')
    ensures Inv(cfg, s')
  {
    UnlockKeepsLocks(s, s', i);
    IdsKept(s, s', i);
    PlainMoveKeeps(cfg, s, s', i);
  }

  // ---------------------------------------------------------------- steps that change registry or store

  /** A write or delete at a path of `c` is invisible to every other collection. */
  lemma PathElsewhere(c: string, f: string, d: string, g: string)
    requires '/' !in c && '/' !in d && c != d
    ensures Naming.TargetPath(c, f) != Naming.TargetPath(d, g)
  {
    if Naming.TargetPath(c, f) == Naming.TargetPath(d, g) {
      Naming.PathInjective(c, f, d, g);
    }
  }

  /** Versions of one collection with different numbers live at different paths. */
  lemma PathOfOther(cfg: Config, c: string, u: UploadedVersion, v: UploadedVersion)
    requires Sound(cfg) && c in cfg.collections
    requires Named(cfg.collections[c], c, u) && Named(cfg.collections[c], c, v) && u.versionNumber != v.versionNumber
    ensures Path(u) != Path(v)
  {
    if Path(u) == Path(v) {
      Naming.PathInjective(c, u.filename, c, v.filename);
      Naming.FilenameInjective(cfg.collections[c].template, u.versionNumber, v.versionNumber);
    }
  }

  /** A move that changes only the blob at the path of a version of its own collection is local. */
  lemma BlobMoveIsLocal(cfg: Config, s: State, s': State, i: nat, v: UploadedVersion)
    requires Sound(cfg) && i in s.clients && s.clients[i].collection in cfg.collections
    requires v.collectionId == s.clients[i].collection && s'.table == s.table && s'.stuck == s.stuck
    requires i in s'.clients && s'.clients == s.clients[i := s'.clients[i]]
             && s'.clients[i].collection == s.clients[i].collection
    requires forall p :: p != Path(v) && p in s.blobs ==> p in s'.blobs && s'.blobs[p] == s.blobs[p]
    requires forall id :: id in s.accepted ==> id in s'.accepted && s'.accepted[id] == s.accepted[id]
    ensures Local(s, s', i)
  {
    forall d, f | d != v.collectionId && '/' !in d && Naming.TargetPath(d, f) in s.blobs
      ensures Naming.TargetPath(d, f) in s'.blobs
              && s'.blobs[Naming.TargetPath(d, f)] == s.blobs[Naming.TargetPath(d, f)]
    {
      PathElsewhere(v.collectionId, v.filename, d, f);
    }
  }

  /** ... and keeps the rows of the collection stored, if none of them has the version's number. */
  lemma BlobMoveKeepsRows(cfg: Config, s: State, s': State, c: string, v: UploadedVersion)
    requires Sound(cfg) && c in cfg.collections && RowsOk(cfg, s, c) && Named(cfg.collections[c], c, v)
    requires s'.table == s.table && s'.stuck == s.stuck
    requires forall u :: u in Rows(s.table, c) && u.id !in s.stuck ==> u.versionNumber != v.versionNumber
    requires forall p :: p != Path(v) && p in s.blobs ==> p in s'.blobs && s'.blobs[p] == s.blobs[p]
    requires forall id :: id in s.accepted ==> id in s'.accepted && s'.accepted[id] == s.accepted[id]
    ensures RowsOk(cfg, s', c)
  {
    forall u | u in Rows(s'.table, c) && u.id !in s'.stuck
      ensures StoredAs(s', u)
    {
      PathOfOther(cfg, c, u, v);
    }
  }

  /**
   * A holder that stays a holder and changes only the blob of a version no live row of its collection shares a number
   * with.
   */
  ghost predicate BlobMove(cfg: Config, s: State, s': State, i: nat, v: UploadedVersion) {
    && i in s.clients && Holds(s.clients[i].phase) && s.clients[i].collection in cfg.collections
    && Named(cfg.collections[s.clients[i].collection], s.clients[i].collection, v)
    && (forall u :: u in Rows(s.table, s.clients[i].collection) && u.id !in s.stuck ==>
      u.versionNumber != v.versionNumber)
    && s'.table == s.table && s'.stuck == s.stuck && s'.locks == s.locks
    && i in s'.clients && s'.clients == s.clients[i := s'.clients[i]] && Holds(s'.clients[i].phase)
    && s'.clients[i].collection == s.clients[i].collection && s'.clients[i].expires == s.clients[i].expires
    && (forall p :: p != Path(v) && p in s.blobs ==> p in s'.blobs && s'.blobs[p] == s.blobs[p])
    && (forall id :: id in s.accepted ==> id in s'.accepted && s'.accepted[id] == s.accepted[id])
    && IdsOk(s') && ClientOk(cfg, s', i)
  }

  lemma BlobMoveKeeps(cfg: Config, s: State, s': State, i: nat, v: UploadedVersion)
    requires Sound(cfg) && Inv(cfg, s) && BlobMove(cfg, s, s', i, v)
    ensures Inv(cfg, s')
  {
    var c := s.clients[i].collection;
    BlobMoveIsLocal(cfg, s, s', i, v);
    assert CollectionOk(cfg, s, c);
    BlobMoveKeepsRows(cfg, s, s', c, v);
    LocksKept(s, s', i);
    assert !Quiet(s', c);
    LocalKeeps(cfg, s, s', i);
  }

  lemma WriteSomeMove(cfg: Config, s: State, i: nat, content: seq<Byte>)
    requires IdsOk(s) && i in s.clients && ClientOk(cfg, s, i) && WriteSomeStep(s, i, content).Some?
    ensures BlobMove(cfg, s, WriteSomeStep(s, i, content).value, i, s.clients[i].phase.version)
  {
    IdsKept(s, WriteSomeStep(s, i, content).value, i);
  }

  lemma WriteSomeKeeps(cfg: Config, s: State, s': State, i: nat, content: seq<Byte>)
    requires Sound(cfg) && Inv(cfg, s) && i in s.clients && WriteSomeStep(s, i, content) == Some(s')
    ensures Inv(cfg, s')
  {
    assert ClientOk(cfg, s, i);
    WriteSomeMove(cfg, s, i, content);
    BlobMoveKeeps(cfg, s, s', i, s.clients[i].phase.version);
  }

  /** A copy that succeeds under the limit leaves an affordable version, stored as accepted. */
  lemma CopyIsAffordable(spec: Spec, rows: seq<UploadedVersion>, doomed: seq<UploadedVersion>, limit: int,
      turns: seq<Stream.Turn>)
    requires 0 <= limit && forall size :: 0 <= size <= limit ==> Affords(spec, rows, doomed, size)
    requires Stream.Copy(Stream.StandardChain(limit), turns, BUFFER_LEN).0.Copied?
    ensures var (outcome, content) := Stream.Copy(Stream.StandardChain(limit), turns, BUFFER_LEN);
            outcome.total == |content| && Affords(spec, rows, doomed, outcome.total)
  {
    Stream.CopyIsFaithful(Stream.StandardChain(limit), turns, BUFFER_LEN);
    Stream.CopiedWithinQuota(Stream.StandardChain(limit), turns, limit, BUFFER_LEN);
  }

  lemma FinishCopyKeepsIds(s: State, s': State, i: nat, content: seq<Byte>)
    requires IdsOk(s) && i in s.clients && s.clients[i].phase.Copying?
    requires i in s'.clients && s'.clients == s.clients[i := s'.clients[i]] && s'.clients[i].phase.Stored?
    requires s'.clients[i].phase.version.id == s.clients[i].phase.version.id
    requires s'.table == s.table && s'.usedIds == s.usedIds && s'.stuck == s.stuck
    requires s'.accepted == s.accepted[s.clients[i].phase.version.id := content]
    ensures IdsOk(s')
  {
  }

  lemma FinishedPhaseOk(cfg: Config, s: State, s': State, i: nat, turns: seq<Stream.Turn>)
    requires Configured(cfg) && i in s.clients && ClientOk(cfg, s, i) && s.clients[i].phase.Copying?
    requires cfg.collections[s.clients[i].collection].maxOneVersion >= 0
    requires FinishCopyStep(s, i, turns) == Some(s')
    ensures s'.clients[i].phase.Stored? && ClientOk(cfg, s', i)
  {
    var c, ph := s.clients[i].collection, s.clients[i].phase;
    CopyIsAffordable(cfg.collections[c], Rows(s.table, c), ph.doomed, ph.limit, turns);
    assert Path(s'.clients[i].phase.version) == Path(ph.version);
  }

  lemma FinishCopyMove(cfg: Config, s: State, s': State, i: nat, turns: seq<Stream.Turn>)
    requires Sound(cfg) && IdsOk(s) && i in s.clients && ClientOk(cfg, s, i) && FinishCopyStep(s, i, turns) == Some(s')
    ensures BlobMove(cfg, s, s', i, s.clients[i].phase.version)
  {
    FinishedPhaseOk(cfg, s, s', i, turns);
    FinishCopyKeepsIds(s, s', i, Stream.Copy(Stream.StandardChain(s.clients[i].phase.limit), turns, BUFFER_LEN).1);
    FinishCopyKeepsAccepted(s, s', i, turns);
    FinishCopyFrame(s, s', i, turns);
  }

  lemma FinishCopyFrame(s: State, s': State, i: nat, turns: seq<Stream.Turn>)
    requires i in s.clients && FinishCopyStep(s, i, turns) == Some(s')
    ensures s'.table == s.table && s'.stuck == s.stuck && s'.locks == s.locks
    ensures i in s'.clients && s'.clients == s.clients[i := s'.clients[i]] && Holds(s.clients[i].phase)
            && Holds(s'.clients[i].phase)
    ensures s'.clients[i].collection == s.clients[i].collection && s'.clients[i].expires == s.clients[i].expires
    ensures forall p :: p != Path(s.clients[i].phase.version) && p in s.blobs ==>
              p in s'.blobs && s'.blobs[p] == s.blobs[p]
  {
  }

  lemma FinishCopyKeepsAccepted(s: State, s': State, i: nat, turns: seq<Stream.Turn>)
    requires IdsOk(s) && i in s.clients && FinishCopyStep(s, i, turns) == Some(s')
    ensures forall id :: id in s.accepted ==> id in s'.accepted && s'.accepted[id] == s.accepted[id]
  {
    assert VersionFresh(s, s.clients[i].phase);
  }

  lemma FinishCopyKeeps(cfg: Config, s: State, s': State, i: nat, turns: seq<Stream.Turn>)
    requires Sound(cfg) && Inv(cfg, s) && i in s.clients && FinishCopyStep(s, i, turns) == Some(s')
    ensures Inv(cfg, s')
  {
    assert ClientOk(cfg, s, i);
    FinishCopyMove(cfg, s, s', i, turns);
    BlobMoveKeeps(cfg, s, s', i, s.clients[i].phase.version);
  }

  lemma DiscardedPhaseOk(cfg: Config, s: State, s': State, c: string, ph: Phase)
    requires s'.table == s.table && s'.stuck == s.stuck && c in cfg.collections && PhaseOk(cfg, s, c, ph)
             && ph.Discarding?
    ensures PhaseOk(cfg, s', c, CleaningOf(ph.doomed))
    ensures forall u :: u in Rows(s.table, c) ==> u.versionNumber != ph.version.versionNumber
  {
    PendingOf(ph.doomed);
  }

  lemma PendingOf(doomed: seq<UploadedVersion>)
    ensures Pending(CleaningOf(doomed)) == doomed
  {
    assert doomed != [] ==> [doomed[0]] + doomed[1..] == doomed;
  }

  lemma BlobDeleteMove(cfg: Config, s: State, s': State, i: nat, v: UploadedVersion, ph: Phase, ok: bool)
    requires IdsOk(s) && i in s.clients && Holds(s.clients[i].phase) && s.clients[i].collection in cfg.collections
    requires Named(cfg.collections[s.clients[i].collection], s.clients[i].collection, v)
    requires forall u :: u in Rows(s.table, s.clients[i].collection) && u.id !in s.stuck ==>
             u.versionNumber != v.versionNumber
    requires s' == BlobDeleted(To(s, i, ph), Path(v), ok)
    requires (ph.Cleaning? || ph.Releasing?) && PhaseOk(cfg, s', s.clients[i].collection, ph)
    ensures BlobMove(cfg, s, s', i, v)
  {
    IdsKept(s, s', i);
  }

  lemma CleanedPhaseOk(cfg: Config, s: State, s': State, c: string, ph: Phase)
    requires s'.table == s.table && s'.stuck == s.stuck && c in cfg.collections
    requires PhaseOk(cfg, s, c, ph) && ph.Cleaning? && ph.rowGone
    ensures PhaseOk(cfg, s', c, CleaningOf(ph.rest))
  {
    PendingOf(ph.rest);
  }

  lemma DiscardBlobMove(cfg: Config, s: State, s': State, i: nat, ok: bool)
    requires IdsOk(s) && i in s.clients && ClientOk(cfg, s, i) && s.clients[i].phase.Discarding?
             && DeleteBlobStep(s, i, ok) == Some(s')
    ensures BlobMove(cfg, s, s', i, s.clients[i].phase.version)
  {
    var ph := s.clients[i].phase;
    DiscardedPhaseOk(cfg, s, s', s.clients[i].collection, ph);
    BlobDeleteMove(cfg, s, s', i, ph.version, CleaningOf(ph.doomed), ok);
  }

  lemma CleanBlobMove(cfg: Config, s: State, s': State, i: nat, ok: bool)
    requires IdsOk(s) && i in s.clients && ClientOk(cfg, s, i) && s.clients[i].phase.Cleaning?
             && DeleteBlobStep(s, i, ok) == Some(s')
    ensures BlobMove(cfg, s, s', i, s.clients[i].phase.head)
  {
    var ph := s.clients[i].phase;
    CleanedPhaseOk(cfg, s, s', s.clients[i].collection, ph);
    BlobDeleteMove(cfg, s, s', i, ph.head, CleaningOf(ph.rest), ok);
  }

  lemma DeleteBlobKeeps(cfg: Config, s: State, s': State, i: nat, ok: bool)
    requires Sound(cfg) && Inv(cfg, s) && i in s.clients && s.clients[i].collection in cfg.collections
    requires DeleteBlobStep(s, i, ok) == Some(s')
    ensures Inv(cfg, s')
  {
    var ph := s.clients[i].phase;
    assert ClientOk(cfg, s, i);
    if ph.Discarding? { DiscardBlobMove(cfg, s, s', i, ok); } else { CleanBlobMove(cfg, s, s', i, ok); }
    BlobMoveKeeps(cfg, s, s', i, if ph.Discarding? then ph.version else ph.head);
  }

  /** A holder that stays a holder and changes only rows of its own collection. */
  ghost predicate RowMove(cfg: Config, s: State, s': State, i: nat) {
    && i in s.clients && Holds(s.clients[i].phase) && s.clients[i].collection in cfg.collections
    && (forall d :: d != s.clients[i].collection ==> Rows(s'.table, d) == Rows(s.table, d))
    && (forall v :: v in s.table && v.collectionId != s.clients[i].collection ==>
      (v.id in s'.stuck <==> v.id in s.stuck))
    && s'.locks == s.locks && s'.blobs == s.blobs && s'.accepted == s.accepted
    && i in s'.clients && s'.clients == s.clients[i := s'.clients[i]] && Holds(s'.clients[i].phase)
    && s'.clients[i].collection == s.clients[i].collection && s'.clients[i].expires == s.clients[i].expires
    && IdsOk(s') && ClientOk(cfg, s', i) && RowsOk(cfg, s', s.clients[i].collection)
  }

  lemma RowMoveKeeps(cfg: Config, s: State, s': State, i: nat)
    requires Sound(cfg) && Inv(cfg, s) && RowMove(cfg, s, s', i)
    ensures Inv(cfg, s')
  {
    LocksKept(s, s', i);
    assert !Quiet(s', s.clients[i].collection);
    assert Local(s, s', i);
    LocalKeeps(cfg, s, s', i);
  }

  /** Deleting the row of an id that only collection `c` may hold leaves the rows of all others alone. */
  lemma RowsElsewhere(s: State, id: Uuid, c: string)
    requires forall v :: v in s.table && v.id == id ==> v.collectionId == c
    ensures forall d :: d != c ==> Rows(Without(s.table, id), d) == Rows(s.table, d)
  {
    forall d | d != c
      ensures Rows(Without(s.table, id), d) == Rows(s.table, d)
    {
      RowsOfWithout(s.table, id, d);
      forall v | v in Rows(s.table, d)
        ensures v.id != id
      {
        RowsMember(s.table, d, v);
      }
      WithoutAbsent(Rows(s.table, d), id);
    }
  }

  /** The version being discarded has no row, so deleting its row changes nothing. */
  lemma DiscardRowMove(cfg: Config, s: State, s': State, i: nat, ok: bool)
    requires IdsOk(s) && i in s.clients && ClientOk(cfg, s, i)
    requires s.clients[i].phase.Discarding? && DeleteRowStep(s, i, ok) == Some(s')
    ensures PhaseMove(cfg, s, s', i)
  {
    assert VersionFresh(s, s.clients[i].phase);
    WithoutAbsent(s.table, s.clients[i].phase.version.id);
  }

  lemma DiscardRowKeeps(cfg: Config, s: State, s': State, i: nat, ok: bool)
    requires Sound(cfg) && Inv(cfg, s) && i in s.clients && s.clients[i].collection in cfg.collections
    requires s.clients[i].phase.Discarding? && DeleteRowStep(s, i, ok) == Some(s')
    ensures Inv(cfg, s')
  {
    assert ClientOk(cfg, s, i);
    DiscardRowMove(cfg, s, s', i, ok);
    PhaseMoveKeeps(cfg, s, s', i);
  }

  /** Deleting a row that is to go shifts the others, so the newest stay the newest. */
  lemma DeletedNotNewest(spec: Spec, rows: seq<UploadedVersion>, gone: set<Uuid>, head: UploadedVersion)
    requires spec.maxBackups >= 1 && NewestStay(spec, rows, gone) && IdsDistinct(rows) && head in rows
             && head.id in gone
    ensures NewestStay(spec, Without(rows, head.id), gone)
  {
    var j :| 0 <= j < |rows| && rows[j] == head;
    WithoutAt(rows, j);
    var rows' := Without(rows, head.id);
    assert j < DoomedCount(spec, |rows|) && |rows'| == |rows| - 1;
    forall k | DoomedCount(spec, |rows'|) <= k < |rows'|
      ensures rows'[k].id !in gone
    {
      assert rows'[k] == rows[k + 1];
    }
  }

  /** Rows and failures after one deletion of the clean-up. */
  ghost predicate HeadDone(rows: seq<UploadedVersion>, stuck: set<Uuid>, rows': seq<UploadedVersion>, stuck': set<Uuid>,
      head: UploadedVersion) {
    || (rows' == Without(rows, head.id) && stuck' == stuck)
    || (rows' == rows && stuck' == stuck + {head.id})
  }

  /** Whether a deletion succeeds or fails, what survives the clean-up is the same. */
  lemma SurvivorsKept(rows: seq<UploadedVersion>, stuck: set<Uuid>, rows': seq<UploadedVersion>, stuck': set<Uuid>,
                      head: UploadedVersion, rest: seq<UploadedVersion>)
    requires HeadDone(rows, stuck, rows', stuck', head)
    ensures Survivors(rows', stuck' + Ids(rest)) == Survivors(rows, stuck + Ids([head] + rest))
    ensures |Survivors(rows', stuck')| <= |Survivors(rows, stuck)|
  {
    assert Ids([head] + rest) == {head.id} + Ids(rest);
    SurvivorsOfWithout(rows, head.id, stuck + Ids(rest));
    assert stuck + Ids(rest) + {head.id} == stuck + Ids([head] + rest) == stuck + {head.id} + Ids(rest);
    SurvivorsOfWithout(rows, head.id, stuck);
    SurvivorsShrink(rows, stuck, stuck + {head.id});
  }

  lemma RestStays(rows: seq<UploadedVersion>, head: UploadedVersion, rest: seq<UploadedVersion>)
    requires IdsDistinct(rows) && Ascending([head] + rest) && forall v :: v in [head] + rest ==> v in rows
    ensures Ascending(rest) && forall v :: v in rest ==> v in Without(rows, head.id)
  {
    var all := [head] + rest;
    assert forall k :: 0 <= k < |rest| ==> rest[k] == all[k + 1] && all[0] == head;
    forall v | v in rest
      ensures v in Without(rows, head.id)
    {
      assert v in all && head in all && v.versionNumber != head.versionNumber;
      WithoutMember(rows, head.id, v);
    }
  }

  lemma HeadDoneOrderly(spec: Spec, rows: seq<UploadedVersion>, stuck: set<Uuid>, rows': seq<UploadedVersion>,
      stuck': set<Uuid>,
                        head: UploadedVersion, rest: seq<UploadedVersion>)
    requires spec.maxBackups >= 1 && IdsDistinct(rows) && HeadDone(rows, stuck, rows', stuck', head)
    requires Orderly(spec, rows, stuck, [head] + rest)
    ensures Orderly(spec, rows', stuck', rest)
  {
    var gone := stuck + Ids([head] + rest);
    SurvivorsKept(rows, stuck, rows', stuck', head, rest);
    RestStays(rows, head, rest);
    assert head in [head] + rest;
    assert forall id :: id in stuck' + Ids(rest) ==> id in gone;
    if rows' != rows { DeletedNotNewest(spec, rows, gone, head); }
    assert forall v :: v in rest ==> v in [head] + rest;
  }

  /** After the deletion no live row of the collection shares the head's number, so its blob may go. */
  lemma HeadNumberFree(rows: seq<UploadedVersion>, stuck: set<Uuid>, rows': seq<UploadedVersion>, stuck': set<Uuid>,
      head: UploadedVersion)
    requires Ascending(rows) && head in rows && HeadDone(rows, stuck, rows', stuck', head)
    ensures forall v :: v in rows' ==>
              v in rows && (v.id !in stuck' ==> v.id !in stuck && v.versionNumber != head.versionNumber)
  {
    forall v | v in rows'
      ensures v in rows && (v.id !in stuck' ==> v.id !in stuck && v.versionNumber != head.versionNumber)
    {
      WithoutMember(rows, head.id, v);
    }
  }

  lemma FewerRowsOk(cfg: Config, s: State, s': State, c: string)
    requires c in cfg.collections && RowsOk(cfg, s, c) && Ascending(Rows(s'.table, c))
    requires forall v :: v in Rows(s'.table, c) ==> v in Rows(s.table, c) && (v.id !in s'.stuck ==> v.id !in s.stuck)
    requires s'.blobs == s.blobs && s'.accepted == s.accepted
    ensures RowsOk(cfg, s', c)
  {
    forall v | v in Rows(s'.table, c) && v.id !in s'.stuck
      ensures StoredAs(s', v)
    {
      assert StoredAs(s, v);
    }
  }

  lemma WithoutAscending(rows: seq<UploadedVersion>, head: UploadedVersion)
    requires Ascending(rows) && IdsDistinct(rows) && head in rows
    ensures Ascending(Without(rows, head.id))
  {
    var j :| 0 <= j < |rows| && rows[j] == head;
    WithoutAt(rows, j);
  }

  /** One deletion of the clean-up, successful or not. */
  lemma HeadDoneOk(cfg: Config, s: State, s': State, c: string, head: UploadedVersion, rest: seq<UploadedVersion>)
    requires Sound(cfg) && c in cfg.collections && IdsOk(s) && RowsOk(cfg, s, c)
             && PhaseOk(cfg, s, c, Cleaning(head, rest, false))
    requires HeadDone(Rows(s.table, c), s.stuck, Rows(s'.table, c), s'.stuck, head) && s'.blobs == s.blobs
             && s'.accepted == s.accepted
    ensures RowsOk(cfg, s', c) && PhaseOk(cfg, s', c, Cleaning(head, rest, true))
  {
    var rows := Rows(s.table, c);
    RowIdsDistinct(cfg, s, c);
    assert head in [head] + rest;
    HeadDoneOrderly(cfg.collections[c], rows, s.stuck, Rows(s'.table, c), s'.stuck, head, rest);
    HeadDoneRowsOk(cfg, s, s', c, head);
  }

  lemma HeadDoneRowsOk(cfg: Config, s: State, s': State, c: string, head: UploadedVersion)
    requires c in cfg.collections && RowsOk(cfg, s, c) && IdsDistinct(Rows(s.table, c)) && head in Rows(s.table, c)
    requires HeadDone(Rows(s.table, c), s.stuck, Rows(s'.table, c), s'.stuck, head)
    requires s'.blobs == s.blobs && s'.accepted == s.accepted
    ensures RowsOk(cfg, s', c) && Named(cfg.collections[c], c, head)
    ensures forall v :: v in Rows(s'.table, c) && v.id !in s'.stuck ==> v.versionNumber != head.versionNumber
  {
    HeadNumberFree(Rows(s.table, c), s.stuck, Rows(s'.table, c), s'.stuck, head);
    WithoutAscending(Rows(s.table, c), head);
    FewerRowsOk(cfg, s, s', c);
  }

  lemma HeadInTable(cfg: Config, s: State, i: nat)
    requires i in s.clients && ClientOk(cfg, s, i) && s.clients[i].phase.Cleaning? && !s.clients[i].phase.rowGone
    ensures s.clients[i].phase.head in s.table && s.clients[i].phase.head.collectionId == s.clients[i].collection
  {
    var ph := s.clients[i].phase;
    assert ph.head in [ph.head] + ph.rest;
    RowsMember(s.table, s.clients[i].collection, ph.head);
  }

  lemma CleanRowIds(s: State, s': State, i: nat, ok: bool)
    requires IdsOk(s) && i in s.clients && s.clients[i].phase.Cleaning? && DeleteRowStep(s, i, ok) == Some(s')
    requires s.clients[i].phase.head in s.table
    ensures IdsOk(s')
  {
    forall v | v in s'.table
      ensures v in s.table
    {
      WithoutMember(s.table, s.clients[i].phase.head.id, v);
    }
    IdsKept(s, s', i);
  }

  lemma CleanRowOk(cfg: Config, s: State, s': State, i: nat, ok: bool)
    requires Sound(cfg) && IdsOk(s) && i in s.clients && ClientOk(cfg, s, i) && RowsOk(cfg, s, s.clients[i].collection)
    requires s.clients[i].phase.Cleaning? && DeleteRowStep(s, i, ok) == Some(s')
    ensures ClientOk(cfg, s', i) && RowsOk(cfg, s', s.clients[i].collection)
  {
    var c, ph := s.clients[i].collection, s.clients[i].phase;
    RowsOfWithout(s.table, ph.head.id, c);
    HeadDoneOk(cfg, s, s', c, ph.head, ph.rest);
  }

  lemma CleanRowElsewhere(s: State, s': State, i: nat, ok: bool)
    requires IdsOk(s) && i in s.clients && s.clients[i].phase.Cleaning? && DeleteRowStep(s, i, ok) == Some(s')
    requires s.clients[i].phase.head in s.table && s.clients[i].phase.head.collectionId == s.clients[i].collection
    ensures forall d :: d != s.clients[i].collection ==> Rows(s'.table, d) == Rows(s.table, d)
    ensures forall v :: v in s.table && v.collectionId != s.clients[i].collection ==>
            (v.id in s'.stuck <==> v.id in s.stuck)
  {
    RowsElsewhere(s, s.clients[i].phase.head.id, s.clients[i].collection);
  }

  lemma CleanRowMove(cfg: Config, s: State, s': State, i: nat, ok: bool)
    requires Sound(cfg) && IdsOk(s) && i in s.clients && ClientOk(cfg, s, i) && RowsOk(cfg, s, s.clients[i].collection)
    requires s.clients[i].phase.Cleaning? && DeleteRowStep(s, i, ok) == Some(s')
    ensures RowMove(cfg, s, s', i)
  {
    HeadInTable(cfg, s, i);
    CleanRowOk(cfg, s, s', i, ok);
    CleanRowElsewhere(s, s', i, ok);
    CleanRowIds(s, s', i, ok);
  }

  lemma CleanRowKeeps(cfg: Config, s: State, s': State, i: nat, ok: bool)
    requires Sound(cfg) && Inv(cfg, s) && i in s.clients && s.clients[i].collection in cfg.collections
    requires s.clients[i].phase.Cleaning? && DeleteRowStep(s, i, ok) == Some(s')
    ensures Inv(cfg, s')
  {
    assert ClientOk(cfg, s, i) && CollectionOk(cfg, s, s.clients[i].collection);
    CleanRowMove(cfg, s, s', i, ok);
    RowMoveKeeps(cfg, s, s', i);
  }

  lemma NewRowSurvives(rows: seq<UploadedVersion>, gone: set<Uuid>, v: UploadedVersion)
    requires v.id !in gone
    ensures Survivors(rows + [v], gone) == Survivors(rows, gone) + [v]
  {
    SurvivorsConcat(rows, [v], gone);
    assert Survivors([v], gone) == [v];
  }

  lemma NewRowNewest(spec: Spec, rows: seq<UploadedVersion>, gone: set<Uuid>, v: UploadedVersion)
    requires NewestStay(spec, rows, gone) && v.id !in gone
    ensures NewestStay(spec, rows + [v], gone)
  {
    assert DoomedCount(spec, |rows|) <= DoomedCount(spec, |rows| + 1);
  }

  /** Registering the new version fills exactly the room the plan makes. */
  lemma NewRowOrderly(spec: Spec, rows: seq<UploadedVersion>, stuck: set<Uuid>, doomed: seq<UploadedVersion>,
      v: UploadedVersion)
    requires spec.maxBackups >= 1 && Orderly(spec, rows, stuck, []) && IsPlan(spec, rows, doomed) && IdsDistinct(rows)
             && Ascending(rows)
    requires Affords(spec, rows, doomed, v.filesize) && v.id !in stuck && forall u :: u in rows ==> u.id != v.id
    ensures Survivors(rows + [v], stuck + Ids(doomed)) == rows[|doomed|..] + [v]
    ensures Orderly(spec, rows + [v], stuck, doomed)
  {
    NothingPending(spec, rows, stuck);
    LostOrderly(spec, rows, stuck, doomed);
    PlanSettles(spec, rows, stuck, doomed);
    assert forall u :: u in doomed ==> u in rows;
    NewRowSurvives(rows, stuck + Ids(doomed), v);
    NewRowSurvives(rows, stuck, v);
    NewRowNewest(spec, rows, stuck + Ids(doomed), v);
    NewRowWithinLimits(spec, rows, doomed, v);
  }

  lemma NewRowWithinLimits(spec: Spec, rows: seq<UploadedVersion>, doomed: seq<UploadedVersion>, v: UploadedVersion)
    requires spec.maxBackups >= 1 && IsPlan(spec, rows, doomed) && Affords(spec, rows, doomed, v.filesize)
    ensures Limits(spec, rows[|doomed|..] + [v])
  {
    var kept := rows[|doomed|..];
    assert (kept + [v])[..|kept|] == kept;
  }

  lemma NewRowFits(cfg: Config, s: State, s': State, c: string, v: UploadedVersion, doomed: seq<UploadedVersion>)
    requires Sound(cfg) && c in cfg.collections && IdsOk(s) && RowsOk(cfg, s, c)
             && PhaseOk(cfg, s, c, Stored(v, doomed))
    requires v.id !in s.stuck && forall u :: u in s.table ==> u.id != v.id
    requires Rows(s'.table, c) == Rows(s.table, c) + [v] && s'.stuck == s.stuck
    ensures PhaseOk(cfg, s', c, CleaningOf(doomed))
  {
    var spec, rows := cfg.collections[c], Rows(s.table, c);
    RowIdsDistinct(cfg, s, c);
    forall u | u in rows
      ensures u.id != v.id
    {
      RowsMember(s.table, c, u);
    }
    NewRowOrderly(spec, rows, s.stuck, doomed, v);
    PendingOf(doomed);
  }

  lemma NewRowOk(cfg: Config, s: State, s': State, c: string, v: UploadedVersion)
    requires c in cfg.collections && RowsOk(cfg, s, c) && IsNext(cfg.collections[c], c, Rows(s.table, c), v)
             && StoredAs(s, v)
    requires Rows(s'.table, c) == Rows(s.table, c) + [v] && s'.blobs == s.blobs && s'.accepted == s.accepted
             && s'.stuck == s.stuck
    ensures RowsOk(cfg, s', c)
  {
    var rows := Rows(s.table, c);
    assert forall k :: 0 <= k < |rows| ==> rows[k] in rows;
    forall u | u in rows + [v] && u.id !in s'.stuck
      ensures StoredAs(s', u)
    {
      assert StoredAs(s, u);
    }
  }

  lemma RegisterKeepsIds(s: State, s': State, i: nat)
    requires IdsOk(s) && i in s.clients && s.clients[i].phase.Stored?
    requires i in s'.clients && s'.clients == s.clients[i := s'.clients[i]] && !HasVersion(s'.clients[i].phase)
    requires s'.table == s.table + [s.clients[i].phase.version] && s'.usedIds == s.usedIds && s'.accepted == s.accepted
    requires s'.stuck == s.stuck
    ensures IdsOk(s')
  {
  }

  lemma RegisteredOk(cfg: Config, s: State, s': State, i: nat)
    requires Sound(cfg) && IdsOk(s) && i in s.clients && ClientOk(cfg, s, i) && RowsOk(cfg, s, s.clients[i].collection)
    requires RegisterStep(s, i, true) == Some(s')
    ensures ClientOk(cfg, s', i) && RowsOk(cfg, s', s.clients[i].collection)
    ensures forall d :: d != s.clients[i].collection ==> Rows(s'.table, d) == Rows(s.table, d)
  {
    var c, ph := s.clients[i].collection, s.clients[i].phase;
    RowsOfAppend(s.table, ph.version, c);
    assert VersionFresh(s, ph);
    NewRowFits(cfg, s, s', c, ph.version, ph.doomed);
    NewRowOk(cfg, s, s', c, ph.version);
    forall d | d != c
      ensures Rows(s'.table, d) == Rows(s.table, d)
    {
      RowsOfAppend(s.table, ph.version, d);
    }
  }

  lemma RegisterMove(cfg: Config, s: State, s': State, i: nat)
    requires Sound(cfg) && IdsOk(s) && i in s.clients && ClientOk(cfg, s, i) && RowsOk(cfg, s, s.clients[i].collection)
    requires RegisterStep(s, i, true) == Some(s')
    ensures RowMove(cfg, s, s', i)
  {
    RegisteredOk(cfg, s, s', i);
    RegisterKeepsIds(s, s', i);
  }

  lemma RegisterKeeps(cfg: Config, s: State, s': State, i: nat)
    requires Sound(cfg) && Inv(cfg, s) && i in s.clients && s.clients[i].collection in cfg.collections
    requires RegisterStep(s, i, true) == Some(s')
    ensures Inv(cfg, s')
  {
    assert ClientOk(cfg, s, i) && CollectionOk(cfg, s, s.clients[i].collection);
    RegisterMove(cfg, s, s', i);
    RowMoveKeeps(cfg, s, s', i);
  }

  // ---------------------------------------------------------------- every step, every run

  /** The steps that change the registry. */
  lemma RowStepKeeps(cfg: Config, s: State, s': State, i: nat, move: Move)
    requires Sound(cfg) && Inv(cfg, s) && i in s.clients && s.clients[i].collection in cfg.collections
    requires move.Register? || move.DeleteRow?
    requires Moved(cfg, s, i, move) == Some(s')
    ensures Inv(cfg, s')
  {
    if move.DeleteRow? { DeleteRowKeeps(cfg, s, s', i, move.ok); }
    else if move.ok { RegisterKeeps(cfg, s, s', i); }
    else { LostRegistrationKeeps(cfg, s, s', i); }
  }

  /** The steps that change the store. */
  lemma BlobStepKeeps(cfg: Config, s: State, s': State, i: nat, move: Move)
    requires Sound(cfg) && Inv(cfg, s) && i in s.clients && s.clients[i].collection in cfg.collections
    requires move.WriteSome? || move.FinishCopy? || move.DeleteBlob?
    requires Moved(cfg, s, i, move) == Some(s')
    ensures Inv(cfg, s')
  {
    match move
    case WriteSome(content) => WriteSomeKeeps(cfg, s, s', i, content);
    case FinishCopy(turns) => FinishCopyKeeps(cfg, s, s', i, turns);
    case DeleteBlob(ok) => DeleteBlobKeeps(cfg, s, s', i, ok);
  }

  /** Every step of a request, whatever fails, keeps the invariant. */
  lemma MoveKeeps(cfg: Config, s: State, s': State, i: nat, move: Move)
    requires Sound(cfg) && Inv(cfg, s) && i in s.clients && s.clients[i].collection in cfg.collections
    requires Moved(cfg, s, i, move) == Some(s')
    ensures Inv(cfg, s')
  {
    if move.CheckLock? || move.GiveUp? || move.Panic? || move.Discard? {
      RetreatKeeps(cfg, s, s', i, move);
    } else if move.WriteSome? || move.FinishCopy? || move.DeleteBlob? {
      BlobStepKeeps(cfg, s, s', i, move);
    } else if move.Register? || move.DeleteRow? {
      RowStepKeeps(cfg, s, s', i, move);
    } else {
      match move
      case InsertLock(at, ok) => InsertLockKeeps(cfg, s, s', i, at, ok);
      case TakeNumber(id) => TakeNumberKeeps(cfg, s, s', i, id);
      case Plan(listed) => PlanKeeps(cfg, s, s', i, listed);
      case SetQuota(listed) => SetQuotaKeeps(cfg, s, s', i, listed);
      case Unlock(ok) => UnlockKeeps(cfg, s, s', i, ok);
    }
  }

  lemma DeleteRowKeeps(cfg: Config, s: State, s': State, i: nat, ok: bool)
    requires Sound(cfg) && Inv(cfg, s) && i in s.clients && s.clients[i].collection in cfg.collections
    requires DeleteRowStep(s, i, ok) == Some(s')
    ensures Inv(cfg, s')
  {
    if s.clients[i].phase.Discarding? { DiscardRowKeeps(cfg, s, s', i, ok); } else { CleanRowKeeps(cfg, s, s', i, ok); }
  }

  lemma InitOk(cfg: Config)
    requires Sound(cfg)
    ensures Inv(cfg, Init()) && Timely(Init())
  {
  }

  lemma StepKeeps(cfg: Config, s: State, a: Action, s': State)
    requires Sound(cfg) && Inv(cfg, s) && Timely(s) && Next(cfg, s, a, s')
    ensures Inv(cfg, s')
  {
    if a.Act? {
      MoveKeeps(cfg, s, s', a.client, a.move);
    } else {
      EnvironmentKeeps(cfg, s, s', a);
    }
  }

  /** Admissible runs keep the invariant. */
  lemma RunKeeps(cfg: Config, s: State, s': State)
    requires Sound(cfg) && Inv(cfg, s) && Timely(s) && ReachableFrom(cfg, s, s')
    ensures Inv(cfg, s') && Timely(s')
  {
    forall u, a, v | Inv(cfg, u) && Timely(u) && Next(cfg, u, a, v)
      ensures Inv(cfg, v)
    {
      StepKeeps(cfg, u, a, v);
    }
    RunInduction(cfg, s, s', u => Inv(cfg, u) && Timely(u));
  }

  /** So it holds in every reachable state. */
  lemma ReachableKeeps(cfg: Config, s: State)
    requires Sound(cfg) && Reachable(cfg, s)
    ensures Inv(cfg, s) && Timely(s)
  {
    InitOk(cfg);
    RunKeeps(cfg, Init(), s);
  }

  ghost predicate TableConfigured(cfg: Config, s: State) {
    forall v :: v in s.table ==> v.collectionId in cfg.collections
  }

  lemma StepTableConfigured(cfg: Config, s: State, a: Action, s': State)
    requires Sound(cfg) && Inv(cfg, s) && TableConfigured(cfg, s) && Next(cfg, s, a, s')
    ensures TableConfigured(cfg, s')
  {
    if a.Act? {
      assert ClientOk(cfg, s, a.client);
      RowsOnlyOf(cfg, s, a.client, a.move);
    }
  }

  lemma RowsOnlyOf(cfg: Config, s: State, i: nat, move: Move)
    requires Configured(cfg) && i in s.clients && ClientOk(cfg, s, i) && Moved(cfg, s, i, move).Some?
    requires TableConfigured(cfg, s)
    ensures TableConfigured(cfg, Moved(cfg, s, i, move).value)
  {
    var s', ph := Moved(cfg, s, i, move).value, s.clients[i].phase;
    if move.DeleteRow? {
      forall v | v in s'.table
        ensures v in s.table
      {
        WithoutMember(s.table, if ph.Cleaning? then ph.head.id else ph.version.id, v);
      }
    } else if !move.Register? {
      TableSame(cfg, s, i, move);
    }
  }

  lemma TableSame(cfg: Config, s: State, i: nat, move: Move)
    requires Configured(cfg) && i in s.clients && s.clients[i].collection in cfg.collections
             && Moved(cfg, s, i, move).Some?
    requires !move.Register? && !move.DeleteRow?
    ensures Moved(cfg, s, i, move).value.table == s.table
  {
  }

  /** Only configured collections have rows. */
  lemma ReachableTableConfigured(cfg: Config, s: State)
    requires Sound(cfg) && Reachable(cfg, s)
    ensures TableConfigured(cfg, s)
  {
    InitOk(cfg);
    forall u, a, v | Inv(cfg, u) && Timely(u) && TableConfigured(cfg, u) && Next(cfg, u, a, v)
      ensures Inv(cfg, v) && TableConfigured(cfg, v)
    {
      StepKeeps(cfg, u, a, v);
      StepTableConfigured(cfg, u, a, v);
    }
    RunInduction(cfg, Init(), s, u => Inv(cfg, u) && Timely(u) && TableConfigured(cfg, u));
  }

}

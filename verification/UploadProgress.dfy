/**
 * Runs go on and heal; and the runs in which things go wrong: a stranded blob, a leftover row, numbers that start over.
 */
module UploadProgress {
  import opened Versions
  import opened Quota
  import opened UploadProtocol
  import opened UploadSafety
  import opened UploadTheorems
  import opened Handler
  import opened UploadRefinement
  import opened UploadRefused
  import opened UploadConservation
  import Stream

  lemma FreshId(used: set<Uuid>) returns (id: Uuid)
    ensures id !in used
  {
    if used == {} {
      id := 0;
    } else {
      var top := Greatest(used);
      id := top + 1;
    }
  }

  lemma Greatest(used: set<Uuid>) returns (top: Uuid)
    requires used != {}
    ensures top in used && forall x :: x in used ==> x <= top
  {
    var x :| x in used;
    if used == {x} {
      top := x;
    } else {
      var rest := used - {x};
      assert used == rest + {x};
      assert rest != {};
      top := Greatest(rest);
      top := if top < x then x else top;
    }
  }

  /** A larger limit accepts whatever a smaller one does. */
  lemma AcceptsMonotone(turns: seq<Stream.Turn>, small: int, large: int)
    requires small <= large && Stream.Accepts(turns, small, BUFFER_LEN)
    ensures Stream.Accepts(turns, large, BUFFER_LEN)
  {
    var e: nat :| Stream.CalmUntil(turns, e) && Stream.AcceptsRest(turns, e, 0, 0, seq(BUFFER_LEN, _ => 0), small);
    assert Stream.AcceptsRest(turns, e, 0, 0, seq(BUFFER_LEN, _ => 0), large);
  }

  /** In every reachable state a quiet collection is as the handler needs it. */
  lemma QuietUploadable(cfg: Config, s: State, c: string, id: Uuid)
    requires Sound(cfg) && Reachable(cfg, s) && c in cfg.collections && Quiet(s, c) && id !in s.usedIds
    ensures Uploadable(cfg.collections[c], s.table, c, id, s.stuck) && Timely(s)
  {
    ReachableKeeps(cfg, s);
    assert CollectionOk(cfg, s, c);
    NewPathIsFree(cfg, s, c, id);
  }

  lemma NewPathIsFree(cfg: Config, s: State, c: string, id: Uuid)
    requires Sound(cfg) && c in cfg.collections && RowsOk(cfg, s, c)
    ensures forall v :: v in Rows(s.table, c) ==>
            Path(v) != Path(NewVersion(cfg.collections[c], Rows(s.table, c), c, id))
  {
    NewVersionIsNext(cfg, s, c, id);
    forall v | v in Rows(s.table, c)
      ensures Path(v) != Path(NewVersion(cfg.collections[c], Rows(s.table, c), c, id))
    {
      PathOfOther(cfg, c, v, NewVersion(cfg.collections[c], Rows(s.table, c), c, id));
    }
  }

  // ---------------------------------------------------------------- uploads in reachable states

  /** The rows are listed in order, and nothing fails while the new version is discarded. */
  function Plainly(rows: seq<UploadedVersion>, id: Uuid, turns: seq<Stream.Turn>, fate: Fate,
      faults: seq<Faults>): Inputs {
    Inputs(id, rows, rows, turns, fate, Faults(false, false), faults)
  }

  /** What the upload changes about the collection from `s` to `v`. */
  ghost predicate Uploads(cfg: Config, s: State, v: State, c: string, x: Inputs)
    requires Configured(cfg) && c in cfg.collections && |x.faults| == |DoomedOf(cfg.collections[c], Rows(s.table, c))|
  {
    var spec, rows := cfg.collections[c], Rows(s.table, c);
    && Rows(v.table, c) == RowsAfter(spec, rows, c, x)
    && Registered(v, c) == Registered(s, c) + (if x.fate.Registers? then 1 else 0)
    && v.stuck <= s.stuck + StuckIds(DoomedOf(spec, rows), x.faults)
    && v.leaked <= s.leaked + LeftBy(DoomedOf(spec, rows), NewVersion(spec, rows, c, x.id), x)
  }

  /** The collection is quiet, its lock is free, and only client `i` has come and gone. */
  ghost predicate Rests(s: State, v: State, c: string, i: nat) {
    && Quiet(v, c) && LockId(c) !in v.locks && v.clients.Keys == s.clients.Keys + {i}
    && forall j :: j in v.clients && Holds(v.clients[j].phase) ==> j in s.clients && Holds(s.clients[j].phase)
  }

  lemma RestsAfter(cfg: Config, s: State, v: State, c: string, i: nat)
    requires Configured(cfg) && Quiet(s, c) && i !in s.clients && CameAndWent(cfg, s, v, c, i)
    ensures Rests(s, v, c, i)
  {
  }

  /** An accepted stream, run through the handler on a collection as a holder finds it. */
  lemma UploadableRun(cfg: Config, s: State, c: string, i: nat, x: Inputs) returns (v: State)
    requires Configured(cfg) && Timely(s) && c in cfg.collections && cfg.lockTime >= 0 && i !in s.clients
             && LockFree(s, c) && Quiet(s, c)
    requires x.id !in s.usedIds && Applicable(cfg.collections[c], Content(s), c, x)
    requires Uploadable(cfg.collections[c], s.table, c, x.id, s.stuck)
             && Accepted(cfg.collections[c], Rows(s.table, c), x.turns)
    ensures |x.faults| == |DoomedOf(cfg.collections[c], Rows(s.table, c))|
    ensures ReachableFrom(cfg, s, v) && Uploads(cfg, s, v, c, x) && Rests(s, v, c, i)
    ensures Content(v) == Effect(cfg.collections[c], Content(s), c, x)
  {
    PlanOfListed(cfg.collections[c], Content(s), c, x, s.stuck);
    ReceivedIff(cfg.collections[c], Content(s), c, x, s.stuck);
    EffectRows(cfg.collections[c], Content(s), c, x, s.stuck);
    v := RestingRun(cfg, s, c, i, x);
  }

  lemma RestingRun(cfg: Config, s: State, c: string, i: nat, x: Inputs) returns (v: State)
    requires Configured(cfg) && Timely(s) && c in cfg.collections && cfg.lockTime >= 0 && i !in s.clients
             && LockFree(s, c) && Quiet(s, c)
    requires x.id !in s.usedIds && Applicable(cfg.collections[c], Content(s), c, x)
    ensures ReachableFrom(cfg, s, v)
            && Computed(cfg.collections[c], Content(s), Registered(s, c), s.stuck, s.leaked, v, c, x)
            && Rests(s, v, c, i)
  {
    v := UploadRuns(cfg, s, c, i, x);
    RestsAfter(cfg, s, v, c, i);
  }

  /** In every reachable state: whatever the fate of an accepted stream and of the deletions, there is a run to it. */
  lemma AcceptedRun(cfg: Config, s: State, c: string, i: nat, turns: seq<Stream.Turn>, fate: Fate, faults: seq<Faults>)
      returns (v: State, id: Uuid)
    requires Sound(cfg) && Reachable(cfg, s) && c in cfg.collections && cfg.lockTime >= 0
    requires Accepted(cfg.collections[c], Rows(s.table, c), turns)
             && |faults| == |DoomedOf(cfg.collections[c], Rows(s.table, c))|
    requires Quiet(s, c) && i !in s.clients && LockFree(s, c)
    ensures id !in s.usedIds && Reachable(cfg, v) && ReachableFrom(cfg, s, v) && Rests(s, v, c, i)
    ensures var x := Plainly(Rows(s.table, c), id, turns, fate, faults);
            && Uploads(cfg, s, v, c, x)
            && Applicable(cfg.collections[c], Content(s), c, x)
              && Content(v) == Effect(cfg.collections[c], Content(s), c, x)
  {
    id := FreshId(s.usedIds);
    QuietUploadable(cfg, s, c, id);
    var spec, rows := cfg.collections[c], Rows(s.table, c);
    PlanPhaseOk(spec, rows, rows);
    v := UploadableRun(cfg, s, c, i, Plainly(rows, id, turns, fate, faults));
    Composes(cfg, Init(), s, v);
  }

  /** With non-negative extra space there is always room for one regular version. */
  lemma RegularIsAccepted(cfg: Config, s: State, c: string, turns: seq<Stream.Turn>)
    requires Sound(cfg) && Reachable(cfg, s) && c in cfg.collections && Quiet(s, c)
    requires ExtraSpace(cfg.collections[c]) >= 0 && Stream.Accepts(turns, cfg.collections[c].maxOneVersion, BUFFER_LEN)
    ensures Accepted(cfg.collections[c], Rows(s.table, c), turns)
  {
    var id := FreshId(s.usedIds);
    QuietUploadable(cfg, s, c, id);
    RegularFits(cfg.collections[c], Rows(s.table, c), s.stuck, turns);
  }

  lemma RegularFits(spec: Spec, rows: seq<UploadedVersion>, stuck: set<Uuid>, turns: seq<Stream.Turn>)
    requires spec.maxBackups >= 1 && Settled(spec, rows, stuck) && ExtraSpace(spec) >= 0
    requires Stream.Accepts(turns, spec.maxOneVersion, BUFFER_LEN)
    ensures Accepted(spec, rows, turns)
  {
    KeptWithinLimits(spec, rows, stuck);
    AcceptsMonotone(turns, spec.maxOneVersion,
      spec.maxOneVersion + ExtraSpace(spec) - Sum(Excess(spec.maxOneVersion), KeptOf(spec, rows)));
  }

  /** The newest version of the collection is the delivered stream, stored at its path. */
  ghost predicate NewestIs(s: State, c: string, upload: UploadedVersion, content: seq<Byte>) {
    var rows := Rows(s.table, c);
    && rows != [] && rows[|rows| - 1] == upload && upload.filesize == |content|
    && Path(upload) in s.blobs && s.blobs[Path(upload)] == content
  }

  /**
   * Whatever happened before: while no upload to the collection is in progress and its lock is free or has expired,
   * every stream that fits beside what the plan keeps can be registered. Afterwards the collection is quiet, its lock
   * free, the upload stored as its newest version, and whatever earlier clean-ups failed to delete is gone, so all of
   * its versions are within the limits.
   */
  lemma AcceptedUploadSucceeds(cfg: Config, s: State, c: string, i: nat, turns: seq<Stream.Turn>)
      returns (v: State, upload: UploadedVersion)
    requires Sound(cfg) && Reachable(cfg, s) && c in cfg.collections && cfg.lockTime >= 0
    requires Accepted(cfg.collections[c], Rows(s.table, c), turns) && Quiet(s, c) && i !in s.clients && LockFree(s, c)
    ensures ReachableFrom(cfg, s, v) && Reachable(cfg, v) && Registered(v, c) == Registered(s, c) + 1
    ensures Quiet(v, c) && LockId(c) !in v.locks
    ensures Undisturbed(v, c) && Limits(cfg.collections[c], Rows(v.table, c))
    ensures v.leaked <= s.leaked
    ensures upload.versionNumber == HighestNumber(Rows(s.table, c)) + 1
            && NewestIs(v, c, upload, Stream.Delivered(turns))
  {
    var spec, rows := cfg.collections[c], Rows(s.table, c);
    var faults, id := NoFaults(|DoomedOf(spec, rows)|), 0;
    v, id := AcceptedRun(cfg, s, c, i, turns, Registers, faults);
    var x := Plainly(rows, id, turns, Registers, faults);
    upload := Uploaded(spec, rows, c, x);
    QuietUploadable(cfg, s, c, id);
    CleanResult(cfg, s, v, c, x);
    LimitsHold(cfg, v, c);
    NothingFailed(DoomedOf(spec, rows), faults);
  }

  /** With every deletion working the kept rows and the new one are all that is left, and they are live. */
  lemma CleanResult(cfg: Config, s: State, v: State, c: string, x: Inputs)
    requires Sound(cfg) && c in cfg.collections && Applicable(cfg.collections[c], Content(s), c, x)
    requires Uploadable(cfg.collections[c], s.table, c, x.id, s.stuck)
             && Accepted(cfg.collections[c], Rows(s.table, c), x.turns)
    requires |x.faults| == |DoomedOf(cfg.collections[c], Rows(s.table, c))|
             && (forall f :: f in x.faults ==> !f.rowFails) && x.fate.Registers?
    requires Uploads(cfg, s, v, c, x) && Content(v) == Effect(cfg.collections[c], Content(s), c, x)
    ensures Undisturbed(v, c)
            && NewestIs(v, c, Uploaded(cfg.collections[c], Rows(s.table, c), c, x), Stream.Delivered(x.turns))
  {
    var spec, rows := cfg.collections[c], Rows(s.table, c);
    var upload := Uploaded(spec, rows, c, x);
    CleanRows(cfg, s, v, c, x);
    KeptAreLive(spec, rows, s.stuck, upload);
    ReceivedIff(spec, Content(s), c, x, s.stuck);
    RegisteredIsStored(spec, Content(s), c, x, s.stuck);
    assert Path(upload) == Path(NewVersion(spec, rows, c, x.id));
  }

  lemma CleanRows(cfg: Config, s: State, v: State, c: string, x: Inputs)
    requires Sound(cfg) && c in cfg.collections && Uploadable(cfg.collections[c], s.table, c, x.id, s.stuck)
    requires Accepted(cfg.collections[c], Rows(s.table, c), x.turns) && (x.fate.Registers? || x.fate.Unregistered?)
    requires |x.faults| == |DoomedOf(cfg.collections[c], Rows(s.table, c))|
             && (forall f :: f in x.faults ==> !f.rowFails)
    requires Uploads(cfg, s, v, c, x)
    ensures var spec, rows := cfg.collections[c], Rows(s.table, c);
            Rows(v.table, c) == KeptOf(spec, rows) + if x.fate.Registers? then [Uploaded(spec, rows, c, x)] else []
    ensures v.stuck <= s.stuck
  {
    var spec, rows := cfg.collections[c], Rows(s.table, c);
    RowsDistinct(s.table, c);
    NewIdDistinct(s.table, c, Uploaded(spec, rows, c, x));
    NothingStuck(DoomedOf(spec, rows), x.faults);
    UndisturbedRows(spec, rows, c, x);
  }

  lemma KeptAreLive(spec: Spec, rows: seq<UploadedVersion>, stuck: set<Uuid>, v: UploadedVersion)
    requires spec.maxBackups >= 1 && NewestStay(spec, rows, stuck) && v.id !in stuck
    ensures forall u :: u in KeptOf(spec, rows) + [v] ==> u.id !in stuck
  {
  }

  // ---------------------------------------------------------------- a stranded blob

  lemma InitQuiet(cfg: Config, c: string)
    requires Configured(cfg)
    ensures Reachable(cfg, Init()) && Quiet(Init(), c) && LockFree(Init(), c) && Rows(Init().table, c) == []
  {
    StartsHere(cfg, Init());
  }

  /** An empty collection takes whatever fits the collection beyond what its other versions are promised. */
  lemma AcceptedByEmpty(spec: Spec, turns: seq<Stream.Turn>)
    requires spec.maxBackups >= 1
    ensures Accepted(spec, [], turns)
            <==> ExtraSpace(spec) >= 0 && Stream.Accepts(turns, spec.maxOneVersion + ExtraSpace(spec), BUFFER_LEN)
  {
    assert KeptOf(spec, []) == [];
  }

  /**
   * The size of a complete copy cannot be read: the handler panics, and the blob is nobody's, with no request in
   * progress.
   */
  lemma PanicStrandsBlob(cfg: Config, c: string, turns: seq<Stream.Turn>) returns (v: State, p: string)
    requires Sound(cfg) && c in cfg.collections && cfg.lockTime >= 0 && Accepted(cfg.collections[c], [], turns)
    ensures Reachable(cfg, v) && forall i :: i in v.clients ==> !Holds(v.clients[i].phase)
    ensures v.table == [] && p in v.blobs && p in v.leaked && v.blobs[p] == Stream.Delivered(turns)
  {
    InitQuiet(cfg, c);
    var spec, id := cfg.collections[c], 0;
    v, id := AcceptedRun(cfg, Init(), c, 0, turns, Unread, []);
    p := Path(NewVersion(spec, [], c, id));
    StrandedContent(cfg, c, Plainly([], id, turns, Unread, []));
    assert forall i :: i in v.clients ==> !Holds(v.clients[i].phase);
    StoreHoldsExactlyTheRegistry(cfg, v, p);
  }

  lemma StrandedContent(cfg: Config, c: string, x: Inputs)
    requires Sound(cfg) && c in cfg.collections && Accepted(cfg.collections[c], [], x.turns) && x.fate.Unread?
    requires Applicable(cfg.collections[c], Content(Init()), c, x)
    ensures Effect(cfg.collections[c], Content(Init()), c, x)
         == Store([], map[Path(NewVersion(cfg.collections[c], [], c, x.id)) := Stream.Delivered(x.turns)])
  {
    InitQuiet(cfg, c);
    QuietUploadable(cfg, Init(), c, x.id);
    ReceivedIff(cfg.collections[c], Content(Init()), c, x, {});
  }

  // ---------------------------------------------------------------- a leftover beside a live version

  /** Where no row delete works, every row stays. */
  lemma {:induction false} NothingDeleted(versions: seq<UploadedVersion>, faults: seq<Faults>)
    requires |faults| == |versions| && forall f :: f in faults ==> f.rowFails
    ensures DeletedIds(versions, faults) == {}
    decreases |versions|
  {
    if versions != [] {
      assert faults[0] in faults;
      NothingDeleted(versions[1..], faults[1..]);
    }
  }

  /** An upload that is registered while no row delete works adds its row. */
  lemma AddingRun(cfg: Config, s: State, c: string, i: nat, turns: seq<Stream.Turn>, faults: seq<Faults>)
      returns (v: State, upload: UploadedVersion)
    requires Sound(cfg) && Reachable(cfg, s) && c in cfg.collections && cfg.lockTime >= 0
    requires Accepted(cfg.collections[c], Rows(s.table, c), turns)
             && |faults| == |DoomedOf(cfg.collections[c], Rows(s.table, c))|
    requires (forall f :: f in faults ==> f.rowFails) && Quiet(s, c) && i !in s.clients && LockFree(s, c)
    ensures Reachable(cfg, v) && Rests(s, v, c, i) && Rows(v.table, c) == Rows(s.table, c) + [upload]
    ensures upload.filesize == |Stream.Delivered(turns)|
  {
    var spec, rows, id := cfg.collections[c], Rows(s.table, c), 0;
    v, id := AcceptedRun(cfg, s, c, i, turns, Registers, faults);
    upload := Uploaded(spec, rows, c, Plainly(rows, id, turns, Registers, faults));
    NothingDeleted(DoomedOf(spec, rows), faults);
    SurvivorsAll(rows + [upload], {});
  }

  /** What an accepted stream takes of the extra space. */
  function Taken(spec: Spec, turns: seq<Stream.Turn>): int {
    Above(|Stream.Delivered(turns)|, spec.maxOneVersion)
  }

  lemma OneRowSum(spec: Spec, v: UploadedVersion)
    ensures Sum(Excess(spec.maxOneVersion), [v]) == Above(v.filesize, spec.maxOneVersion)
  {
    SumOfTwo(Excess(spec.maxOneVersion), v, v);
  }

  /** Of a collection of two, the plan keeps the newest row. */
  lemma RoomBeside(spec: Spec, rows: seq<UploadedVersion>, v: UploadedVersion, turns: seq<Stream.Turn>)
    requires spec.maxBackups == 2 && KeptOf(spec, rows) == [v] && ExtraSpace(spec) >= 0
    requires Stream.Accepts(turns, spec.maxOneVersion + ExtraSpace(spec) - Above(v.filesize, spec.maxOneVersion),
             BUFFER_LEN)
    ensures Accepted(spec, rows, turns)
  {
    OneRowSum(spec, v);
  }

  lemma ReachableDistinct(cfg: Config, s: State, c: string)
    requires Sound(cfg) && Reachable(cfg, s) && c in cfg.collections
    ensures IdsDistinct(Rows(s.table, c))
  {
    ReachableKeeps(cfg, s);
    assert CollectionOk(cfg, s, c);
    RowIdsDistinct(cfg, s, c);
  }

  /** A stream takes at most the extra space, and a regular one nothing of it. */
  lemma TakenBounds(spec: Spec, turns: seq<Stream.Turn>, limit: int)
    requires Stream.Accepts(turns, limit, BUFFER_LEN) && spec.maxOneVersion <= limit
    ensures 0 <= Taken(spec, turns) <= limit - spec.maxOneVersion
  {
    Stream.AcceptedHasHeader(turns, limit, BUFFER_LEN);
  }

  /** A regular stream always fits beside the newest row, which takes no more than the extra space. */
  lemma RegularBeside(spec: Spec, rows: seq<UploadedVersion>, v: UploadedVersion, turns: seq<Stream.Turn>)
    requires spec.maxBackups == 2 && KeptOf(spec, rows) == [v]
             && Above(v.filesize, spec.maxOneVersion) <= ExtraSpace(spec)
    requires Stream.Accepts(turns, spec.maxOneVersion, BUFFER_LEN)
    ensures Accepted(spec, rows, turns)
  {
    AcceptsMonotone(turns, spec.maxOneVersion,
      spec.maxOneVersion + ExtraSpace(spec) - Above(v.filesize, spec.maxOneVersion));
    RoomBeside(spec, rows, v, turns);
  }

  /** A large upload ... */
  lemma OneRow(cfg: Config, c: string, turns: seq<Stream.Turn>) returns (s: State, a: UploadedVersion)
    requires Sound(cfg) && c in cfg.collections && cfg.lockTime >= 0 && ExtraSpace(cfg.collections[c]) >= 0
    requires Stream.Accepts(turns, cfg.collections[c].maxOneVersion + ExtraSpace(cfg.collections[c]), BUFFER_LEN)
    ensures Reachable(cfg, s) && Quiet(s, c) && LockFree(s, c) && s.clients.Keys == {0} && Rows(s.table, c) == [a]
    ensures a.filesize == |Stream.Delivered(turns)|
    ensures Above(a.filesize, cfg.collections[c].maxOneVersion) <= ExtraSpace(cfg.collections[c])
  {
    InitQuiet(cfg, c);
    AcceptedByEmpty(cfg.collections[c], turns);
    TakenBounds(cfg.collections[c], turns, cfg.collections[c].maxOneVersion + ExtraSpace(cfg.collections[c]));
    s, a := AddingRun(cfg, Init(), c, 0, turns, []);
    assert [] + [a] == [a];
  }

  /** ... and a regular one. */
  lemma TwoRows(cfg: Config, c: string, ta: seq<Stream.Turn>, tb: seq<Stream.Turn>)
    returns (s: State, a: UploadedVersion, b: UploadedVersion)
    requires Sound(cfg) && c in cfg.collections && cfg.lockTime >= 0
    requires cfg.collections[c].maxBackups == 2 && ExtraSpace(cfg.collections[c]) >= 0
    requires Stream.Accepts(tb, cfg.collections[c].maxOneVersion, BUFFER_LEN)
    requires Stream.Accepts(ta, cfg.collections[c].maxOneVersion + ExtraSpace(cfg.collections[c]), BUFFER_LEN)
    ensures Reachable(cfg, s) && Quiet(s, c) && LockFree(s, c) && s.clients.Keys == {0, 1} && Rows(s.table, c) == [a, b]
    ensures a.filesize == |Stream.Delivered(ta)| && b.filesize == |Stream.Delivered(tb)|
  {
    s, a := OneRow(cfg, c, ta);
    assert KeptOf(cfg.collections[c], [a]) == [a];
    RegularBeside(cfg.collections[c], [a], a, tb);
    s, b := AddingRun(cfg, s, c, 1, tb, []);
    assert [a] + [b] == [a, b];
  }

  /** A third one, large again, whose clean-up fails to delete the oldest row. */
  lemma ThreeRows(cfg: Config, c: string, ta: seq<Stream.Turn>, tb: seq<Stream.Turn>, tc: seq<Stream.Turn>)
    returns (s: State, a: UploadedVersion, b: UploadedVersion, d: UploadedVersion)
    requires Sound(cfg) && c in cfg.collections && cfg.lockTime >= 0 && cfg.collections[c].maxBackups == 2
             && ExtraSpace(cfg.collections[c]) >= 0
    requires Stream.Accepts(tb, cfg.collections[c].maxOneVersion, BUFFER_LEN)
    requires Stream.Accepts(ta, cfg.collections[c].maxOneVersion + ExtraSpace(cfg.collections[c]), BUFFER_LEN)
    requires Stream.Accepts(tc, cfg.collections[c].maxOneVersion + ExtraSpace(cfg.collections[c]), BUFFER_LEN)
    ensures Reachable(cfg, s) && Quiet(s, c) && LockFree(s, c) && 3 !in s.clients && Rows(s.table, c) == [a, b, d]
    ensures a.filesize == |Stream.Delivered(ta)| && b.filesize == |Stream.Delivered(tb)|
            && d.filesize == |Stream.Delivered(tc)|
  {
    var spec := cfg.collections[c];
    s, a, b := TwoRows(cfg, c, ta, tb);
    assert KeptOf(spec, [a, b]) == [b];
    TakenBounds(spec, tb, spec.maxOneVersion);
    RoomBeside(spec, [a, b], b, tc);
    s, d := AddingRun(cfg, s, c, 2, tc, [Faults(true, false)]);
  }

  /**
   * Why the limits are about the live versions: when a clean-up fails on a row, a later registration is lost and the
   * clean-up fails on the row again, a quiet collection of two is left with two rows beyond its extra space.
   */
  lemma LeftoverBreaksLimits(cfg: Config, c: string, ta: seq<Stream.Turn>, tb: seq<Stream.Turn>, tc: seq<Stream.Turn>)
      returns (v: State)
    requires Sound(cfg) && c in cfg.collections && cfg.lockTime >= 0 && cfg.collections[c].maxBackups == 2
             && ExtraSpace(cfg.collections[c]) >= 0
    requires Stream.Accepts(tb, cfg.collections[c].maxOneVersion, BUFFER_LEN)
    requires Stream.Accepts(ta, cfg.collections[c].maxOneVersion + ExtraSpace(cfg.collections[c]), BUFFER_LEN)
    requires Stream.Accepts(tc, cfg.collections[c].maxOneVersion + ExtraSpace(cfg.collections[c]), BUFFER_LEN)
    requires Taken(cfg.collections[c], ta) + Taken(cfg.collections[c], tc) > ExtraSpace(cfg.collections[c])
    ensures Reachable(cfg, v) && Quiet(v, c) && |Rows(v.table, c)| == 2 && !Limits(cfg.collections[c], Rows(v.table, c))
  {
    var spec, faults := cfg.collections[c], [Faults(true, false), Faults(false, false)];
    var s, a, b, d := ThreeRows(cfg, c, ta, tb, tc);
    assert KeptOf(spec, [a, b, d]) == [d];
    TakenBounds(spec, tc, spec.maxOneVersion + ExtraSpace(spec));
    RegularBeside(spec, [a, b, d], d, tb);
    var id: Uuid;
    v, id := AcceptedRun(cfg, s, c, 3, tb, Unregistered, faults);
    ReachableDistinct(cfg, s, c);
    TakenBounds(spec, tb, spec.maxOneVersion);
    LeftoverBesideLive(spec, a, b, d);
    assert [a, b, d] + [] == [a, b, d];
  }

  // ---------------------------------------------------------------- numbers that start over

  /**
   * In every reachable state a version about to be registered in `c` carries the number after the last registration.
   */
  ghost predicate NumbersAdvance(cfg: Config, c: string)
    requires Configured(cfg)
  {
    forall s, i ::
      Reachable(cfg, s) && i in s.clients && s.clients[i].collection == c && ToBeRegistered(s.clients[i].phase) ==>
        s.clients[i].phase.version.versionNumber == Registered(s, c) + 1
  }

  predicate ToBeRegistered(ph: Phase) {
    HasVersion(ph) && !ph.Discarding?
  }

  lemma SingleVersion(spec: Spec, rows: seq<UploadedVersion>)
    requires spec.maxBackups == 1
    ensures KeptOf(spec, rows) == [] && (forall tail :: KeptOf(spec, rows) + tail == tail)
    ensures forall turns ::
              Accepted(spec, rows, turns) <==>
              spec.maxOneVersion <= spec.maxCollection && Stream.Accepts(turns, spec.maxCollection, BUFFER_LEN)
  {
    assert KeptOf(spec, rows) == [];
  }

  /** A run of a collection that keeps one version, with every deletion working. */
  lemma SingleRun(cfg: Config, s: State, c: string, i: nat, turns: seq<Stream.Turn>, fate: Fate) returns (v: State)
    requires Sound(cfg) && Reachable(cfg, s) && c in cfg.collections && cfg.lockTime >= 0
             && cfg.collections[c].maxBackups == 1
    requires cfg.collections[c].maxOneVersion <= cfg.collections[c].maxCollection
    requires Stream.Accepts(turns, cfg.collections[c].maxCollection, BUFFER_LEN)
    requires (fate.Registers? || fate.Unregistered?) && Quiet(s, c) && i !in s.clients && LockFree(s, c)
    ensures ReachableFrom(cfg, s, v) && Reachable(cfg, v) && Rests(s, v, c, i)
    ensures fate.Unregistered? ==> Rows(v.table, c) == [] && Registered(v, c) == Registered(s, c)
    ensures fate.Registers? ==>
              && |Rows(v.table, c)| == 1 && Rows(v.table, c)[0].versionNumber == HighestNumber(Rows(s.table, c)) + 1
              && Registered(v, c) == Registered(s, c) + 1
  {
    var spec, rows, id := cfg.collections[c], Rows(s.table, c), 0;
    SingleVersion(spec, rows);
    var faults := NoFaults(|DoomedOf(spec, rows)|);
    v, id := AcceptedRun(cfg, s, c, i, turns, fate, faults);
    QuietUploadable(cfg, s, c, id);
    CleanRows(cfg, s, v, c, Plainly(rows, id, turns, fate, faults));
  }

  /**
   * A collection that keeps one version: a first upload is registered, a second one is not, and the third takes number
   * 1 again.
   */
  lemma NumberReused(cfg: Config, c: string, turns: seq<Stream.Turn>) returns (s: State, v: State, i: nat)
    requires Sound(cfg) && c in cfg.collections && cfg.lockTime >= 0 && cfg.collections[c].maxBackups == 1
    requires cfg.collections[c].maxOneVersion <= cfg.collections[c].maxCollection
    requires Stream.Accepts(turns, cfg.collections[c].maxCollection, BUFFER_LEN)
    ensures Reachable(cfg, s) && |Rows(s.table, c)| == 1
    ensures ReachableFrom(cfg, s, v) && Reachable(cfg, v) && Registered(v, c) == 1
    ensures i in v.clients && v.clients[i].collection == c && ToBeRegistered(v.clients[i].phase)
    ensures v.clients[i].phase.version.versionNumber == Rows(s.table, c)[0].versionNumber == 1
  {
    InitQuiet(cfg, c);
    s := SingleRun(cfg, Init(), c, 0, turns, Registers);
    var u := SingleRun(cfg, s, c, 1, turns, Unregistered);
    i := 2;
    v := TakesNextNumber(cfg, u, c, i);
    Composes(cfg, s, u, v);
    Composes(cfg, Init(), u, v);
  }

  lemma TakesNextNumber(cfg: Config, s: State, c: string, i: nat) returns (v: State)
    requires Sound(cfg) && Reachable(cfg, s) && c in cfg.collections && cfg.lockTime >= 0 && i !in s.clients
             && LockFree(s, c)
    ensures ReachableFrom(cfg, s, v) && Registered(v, c) == Registered(s, c)
    ensures i in v.clients && v.clients[i].collection == c && ToBeRegistered(v.clients[i].phase)
    ensures v.clients[i].phase.version.versionNumber == HighestNumber(Rows(s.table, c)) + 1
  {
    ReachableTimely(cfg, s);
    var locked := Acquires(cfg, s, c, i);
    var id := FreshId(locked.usedIds);
    StartsLocked(cfg, locked, c, i);
    v := TakesNumber(cfg, locked, i, c, id);
    assert Content(locked) == Content(s);
    Composes(cfg, s, locked, v);
  }

  lemma ReachableTimely(cfg: Config, s: State)
    requires Sound(cfg) && Reachable(cfg, s)
    ensures Timely(s)
  {
    ReachableKeeps(cfg, s);
  }

  /**
   * Numbers advance in every run if and only if the collection keeps two versions or more, or has no room for any: a
   * collection smaller than its version, or than an armor header.
   */
  lemma NumbersAdvanceIff(cfg: Config, c: string)
    requires Sound(cfg) && c in cfg.collections && cfg.lockTime >= 0
    ensures NumbersAdvance(cfg, c)
       <==> var spec := cfg.collections[c];
            spec.maxBackups >= 2 || spec.maxCollection < spec.maxOneVersion || spec.maxCollection < |Stream.HEADER|
  {
    var spec := cfg.collections[c];
    if spec.maxBackups >= 2 {
      TwoVersionsAdvance(cfg, c);
    } else if spec.maxCollection < spec.maxOneVersion || spec.maxCollection < |Stream.HEADER| {
      EmptyAdvances(cfg, c);
    } else {
      HeaderOnlyAccepted(spec.maxCollection);
      var s, v, i := NumberReused(cfg, c, HeaderOnly());
    }
  }

  lemma TwoVersionsAdvance(cfg: Config, c: string)
    requires Sound(cfg) && c in cfg.collections && cfg.collections[c].maxBackups >= 2
    ensures NumbersAdvance(cfg, c)
  {
    forall s, i | Reachable(cfg, s) && i in s.clients && s.clients[i].collection == c
      && ToBeRegistered(s.clients[i].phase)
      ensures s.clients[i].phase.version.versionNumber == Registered(s, c) + 1
    {
      NumbersNeverReused(cfg, s, i);
    }
  }

  lemma EmptyAdvances(cfg: Config, c: string)
    requires Sound(cfg) && c in cfg.collections && cfg.collections[c].maxBackups == 1
    requires cfg.collections[c].maxCollection < cfg.collections[c].maxOneVersion
             || cfg.collections[c].maxCollection < |Stream.HEADER|
    ensures NumbersAdvance(cfg, c)
  {
    RefusesExactly(cfg.collections[c]);
    forall s, i | Reachable(cfg, s) && i in s.clients && s.clients[i].collection == c
      && ToBeRegistered(s.clients[i].phase)
      ensures s.clients[i].phase.version.versionNumber == Registered(s, c) + 1
    {
      ReachableEmpty(cfg, s, c);
      NumbersNeverReused(cfg, s, i);
    }
  }

}

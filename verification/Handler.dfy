/**
 * What one upload does to registry and store, as a function of what the surroundings decide
 * (pkg/http/collection.go:59-135).
 */
module Handler {
  import opened Versions
  import opened Quota
  import opened Int64
  import opened UploadProtocol
  import opened UploadSafety
  import Rotation
  import Stream

  datatype Store = Store(table: seq<UploadedVersion>, blobs: map<string, seq<Byte>>)

  /** What goes wrong while one version is deleted. */
  datatype Faults = Faults(rowFails: bool, blobFails: bool)

  /** What becomes of an upload whose copy has succeeded. */
  datatype Fate = Unread | Cancelled | Unregistered | Registers

  /**
   * What the surroundings decide: the id, the order in which the two queries list the rows, the stream, the fate of a
   * complete copy, and what goes wrong when the new version is discarded and when each old one is deleted.
   */
  datatype Inputs = Inputs(
    id: Uuid,
    listed: seq<UploadedVersion>,
    relisted: seq<UploadedVersion>,
    turns: seq<Stream.Turn>,
    fate: Fate,
    discard: Faults,
    faults: seq<Faults>)

  predicate Applicable(spec: Spec, st: Store, c: string, x: Inputs) {
    && spec.maxBackups >= 1
    && multiset(x.listed) == multiset(Rows(st.table, c)) && multiset(x.relisted) == multiset(Rows(st.table, c))
    && |x.faults| == |Rotation.Doomed(x.listed, spec.maxBackups)|
  }

  /** `Delete`: row and blob go independently of each other. */
  function Deleted(st: Store, v: UploadedVersion, faults: Faults): Store {
    Store(if faults.rowFails then st.table else Without(st.table, v.id),
          if faults.blobFails then st.blobs else st.blobs - {Path(v)})
  }

  /** `CleanUpOlderVersions`. */
  function Cleaned(st: Store, versions: seq<UploadedVersion>, faults: seq<Faults>): Store
    requires |faults| == |versions|
    decreases |versions|
  {
    if versions == [] then st else Cleaned(Deleted(st, versions[0], faults[0]), versions[1..], faults[1..])
  }

  /** Lines 111-135, once the copy is complete. */
  function AfterCopy(st: Store, v: UploadedVersion, doomed: seq<UploadedVersion>, x: Inputs): Store
    requires |x.faults| == |doomed|
  {
    match x.fate
    case Unread => st
    case Cancelled => Deleted(st, v, x.discard)
    case Unregistered => Cleaned(Deleted(st, v, x.discard), doomed, x.faults)
    case Registers => Cleaned(Store(st.table + [v], st.blobs), doomed, x.faults)
  }

  function UploadLimit(spec: Spec, x: Inputs): Limit
    requires spec.maxBackups >= 1
  {
    var doomed := Rotation.Doomed(x.listed, spec.maxBackups);
    MaximumUpload64(spec, Wrap(Sum(ExcessExcept(spec.maxOneVersion, Ids(doomed)), x.relisted)))
  }

  function Copied(limit: int, x: Inputs): (Stream.Outcome, seq<Byte>) {
    Stream.Copy(Stream.StandardChain(limit), x.turns, BUFFER_LEN)
  }

  /** Registry and store after the upload. */
  function Effect(spec: Spec, st: Store, c: string, x: Inputs): Store
    requires Applicable(spec, st, c, x)
  {
    var v := NewVersion(spec, Rows(st.table, c), c, x.id);
    match UploadLimit(spec, x)
    case Corrupted => st
    case Allowed(limit) =>
      var (outcome, content) := Copied(limit, x);
      var written := Store(st.table, st.blobs[Path(v) := content]);
      if !outcome.Copied? then Deleted(written, v, x.discard)
      else AfterCopy(written, v.(filesize := outcome.total), Rotation.Doomed(x.listed, spec.maxBackups), x)
  }

  /** The copy is complete. */
  predicate Received(spec: Spec, x: Inputs)
    requires spec.maxBackups >= 1
  {
    UploadLimit(spec, x).Allowed? && Copied(UploadLimit(spec, x).bytes, x).0.Copied?
  }

  // ---------------------------------------------------------------- deletions

  function DeletedIds(versions: seq<UploadedVersion>, faults: seq<Faults>): set<Uuid>
    requires |faults| == |versions|
  {
    if versions == [] then {}
    else (if faults[0].rowFails then {} else {versions[0].id}) + DeletedIds(versions[1..], faults[1..])
  }

  function StuckIds(versions: seq<UploadedVersion>, faults: seq<Faults>): set<Uuid>
    requires |faults| == |versions|
  {
    if versions == [] then {}
    else (if faults[0].rowFails then {versions[0].id} else {}) + StuckIds(versions[1..], faults[1..])
  }

  /** The clean-up removes exactly the rows whose deletion works. */
  lemma {:induction false} CleanedTable(st: Store, versions: seq<UploadedVersion>, faults: seq<Faults>)
    requires |faults| == |versions|
    ensures Cleaned(st, versions, faults).table == Survivors(st.table, DeletedIds(versions, faults))
    decreases |versions|
  {
    if versions == [] {
      SurvivorsAll(st.table, {});
    } else {
      var rest := DeletedIds(versions[1..], faults[1..]);
      CleanedTable(Deleted(st, versions[0], faults[0]), versions[1..], faults[1..]);
      SurvivorsOfWithout(st.table, versions[0].id, rest);
      assert rest + {versions[0].id} == {versions[0].id} + rest && {} + rest == rest;
    }
  }

  /** ... and exactly the blobs whose deletion works, leaving the others as they are. */
  lemma {:induction false} CleanedBlobs(st: Store, versions: seq<UploadedVersion>, faults: seq<Faults>, p: string)
    requires |faults| == |versions|
    ensures var blobs := Cleaned(st, versions, faults).blobs;
            && (p in blobs <==> p in st.blobs && forall k :: 0 <= k < |versions| && Path(versions[k]) == p ==>
              faults[k].blobFails)
            && (p in blobs ==> blobs[p] == st.blobs[p])
    decreases |versions|
  {
    if versions != [] {
      CleanedBlobs(Deleted(st, versions[0], faults[0]), versions[1..], faults[1..], p);
      assert forall k :: 0 < k < |versions| ==> versions[k] == versions[1..][k - 1] && faults[k] == faults[1..][k - 1];
    }
  }

  lemma IdsOfCons(head: UploadedVersion, rest: seq<UploadedVersion>)
    ensures Ids([head] + rest) == {head.id} + Ids(rest)
  {
    assert head in [head] + rest && forall v :: v in rest ==> v in [head] + rest;
  }

  lemma {:induction false} DeletedOrStuck(versions: seq<UploadedVersion>, faults: seq<Faults>)
    requires |faults| == |versions|
    ensures DeletedIds(versions, faults) + StuckIds(versions, faults) == Ids(versions)
    decreases |versions|
  {
    if versions != [] {
      DeletedOrStuck(versions[1..], faults[1..]);
      IdsOfCons(versions[0], versions[1..]);
      assert versions == [versions[0]] + versions[1..];
    }
  }

  lemma {:induction false} NothingStuck(versions: seq<UploadedVersion>, faults: seq<Faults>)
    requires |faults| == |versions| && forall f :: f in faults ==> !f.rowFails
    ensures StuckIds(versions, faults) == {} && DeletedIds(versions, faults) == Ids(versions)
    decreases |versions|
  {
    if versions != [] {
      assert faults[0] in faults;
      NothingStuck(versions[1..], faults[1..]);
    }
    DeletedOrStuck(versions, faults);
  }

  /** Deleting a registered version keeps registry and store in agreement unless the row stays and the blob goes. */
  lemma DeleteAgreesIff(st: Store, v: UploadedVersion, faults: Faults)
    requires Agree(st) && v in st.table
    requires forall u :: u in st.table && u != v ==> u.id != v.id && Path(u) != Path(v)
    ensures Agree(Deleted(st, v, faults)) <==> !faults.rowFails || faults.blobFails
  {
    forall u
      ensures u in Without(st.table, v.id) <==> u in st.table && u != v
    {
      WithoutMember(st.table, v.id, u);
    }
  }

  /** Every registered version has a blob of its size. */
  ghost predicate Agree(st: Store) {
    forall v :: v in st.table ==> Path(v) in st.blobs && |st.blobs[Path(v)]| == v.filesize
  }

  // ---------------------------------------------------------------- what an upload comes to

  /**
   * What the holder of the lock finds: rows in order, within the limits but for those in `stuck`, which an earlier
   * clean-up failed to delete; ids that identify rows; an id and a path of its own.
   */
  ghost predicate Uploadable(spec: Spec, table: seq<UploadedVersion>, c: string, id: Uuid, stuck: set<Uuid>) {
    var rows := Rows(table, c);
    && SpecFits(spec) && Ascending(rows) && Settled(spec, rows, stuck)
    && (forall u, v :: u in table && v in table && u.id == v.id ==> u == v)
    && id !in stuck && (forall v :: v in table ==> v.id != id)
    && (forall v :: v in rows ==> Path(v) != Path(NewVersion(spec, rows, c, id)))
  }

  /** The versions the rotation dooms, and those that stay. */
  function DoomedOf(spec: Spec, rows: seq<UploadedVersion>): seq<UploadedVersion>
    requires spec.maxBackups >= 1
  {
    rows[..DoomedCount(spec, |rows|)]
  }

  function KeptOf(spec: Spec, rows: seq<UploadedVersion>): seq<UploadedVersion>
    requires spec.maxBackups >= 1
  {
    rows[DoomedCount(spec, |rows|)..]
  }

  /** An undisturbed, armored stream that fits beside what stays. */
  ghost predicate Accepted(spec: Spec, rows: seq<UploadedVersion>, turns: seq<Stream.Turn>)
    requires spec.maxBackups >= 1
  {
    var room := ExtraSpace(spec) - Sum(Excess(spec.maxOneVersion), KeptOf(spec, rows));
    ExtraSpace(spec) >= 0 && Stream.Accepts(turns, spec.maxOneVersion + room, BUFFER_LEN)
  }

  ghost function Uploaded(spec: Spec, rows: seq<UploadedVersion>, c: string, x: Inputs): UploadedVersion {
    NewVersion(spec, rows, c, x.id).(filesize := |Stream.Delivered(x.turns)|)
  }

  /** The rows of the collection after an upload. */
  ghost function RowsAfter(spec: Spec, rows: seq<UploadedVersion>, c: string, x: Inputs): seq<UploadedVersion>
    requires spec.maxBackups >= 1 && |x.faults| == |DoomedOf(spec, rows)|
  {
    if !Accepted(spec, rows, x.turns) || x.fate.Unread? || x.fate.Cancelled? then rows
    else Survivors(rows + (if x.fate.Registers? then [Uploaded(spec, rows, c, x)] else []),
      DeletedIds(DoomedOf(spec, rows), x.faults))
  }

  lemma RowsDistinct(table: seq<UploadedVersion>, c: string)
    requires Ascending(Rows(table, c)) && forall u, v :: u in table && v in table && u.id == v.id ==> u == v
    ensures IdsDistinct(Rows(table, c))
  {
    var rows := Rows(table, c);
    forall i, j | 0 <= i < j < |rows|
      ensures rows[i].id != rows[j].id
    {
      RowsMember(table, c, rows[i]);
      RowsMember(table, c, rows[j]);
    }
  }

  lemma UploadableRows(spec: Spec, table: seq<UploadedVersion>, c: string, id: Uuid, stuck: set<Uuid>)
    requires Uploadable(spec, table, c, id, stuck)
    ensures IdsDistinct(Rows(table, c)) && Limits(spec, KeptOf(spec, Rows(table, c)))
  {
    RowsDistinct(table, c);
    KeptWithinLimits(spec, Rows(table, c), stuck);
  }

  /**
   * However the database lists the rows, the plan is the oldest ones and the limit leaves exactly what the rest leaves.
   */
  ghost predicate PlannedFor(spec: Spec, rows: seq<UploadedVersion>, x: Inputs)
    requires spec.maxBackups >= 1
  {
    && Rotation.Doomed(x.listed, spec.maxBackups) == DoomedOf(spec, rows)
    && match UploadLimit(spec, x)
       case Corrupted => ExtraSpace(spec) < 0
       case Allowed(limit) =>
         && ExtraSpace(spec) >= 0 && 0 <= limit
         && limit == spec.maxOneVersion + ExtraSpace(spec) - Sum(Excess(spec.maxOneVersion), KeptOf(spec, rows))
  }

  lemma PlanOfListed(spec: Spec, st: Store, c: string, x: Inputs, stuck: set<Uuid>)
    requires Applicable(spec, st, c, x) && Uploadable(spec, st.table, c, x.id, stuck)
    ensures PlannedFor(spec, Rows(st.table, c), x)
  {
    UploadableRows(spec, st.table, c, x.id, stuck);
    PlanOfRows(spec, Rows(st.table, c), x);
  }

  lemma PlanOfRows(spec: Spec, rows: seq<UploadedVersion>, x: Inputs)
    requires SpecFits(spec) && Limits(spec, KeptOf(spec, rows)) && IdsDistinct(rows) && Ascending(rows)
    requires multiset(x.listed) == multiset(rows) && multiset(x.relisted) == multiset(rows)
    ensures PlannedFor(spec, rows, x)
  {
    PlanPhaseOk(spec, rows, x.listed);
    LimitOfRows(spec, rows, x.relisted);
  }

  lemma LimitOfRows(spec: Spec, rows: seq<UploadedVersion>, listed: seq<UploadedVersion>)
    requires SpecFits(spec) && Limits(spec, KeptOf(spec, rows)) && multiset(listed) == multiset(rows)
             && IdsDistinct(rows)
    ensures var used := Sum(ExcessExcept(spec.maxOneVersion, Ids(DoomedOf(spec, rows))), listed);
            match MaximumUpload64(spec, Wrap(used))
            case Corrupted => ExtraSpace(spec) < 0
            case Allowed(limit) =>
              && ExtraSpace(spec) >= 0 && 0 <= limit
              && limit == spec.maxOneVersion + ExtraSpace(spec) - Sum(Excess(spec.maxOneVersion), KeptOf(spec, rows))
  {
    ListedLimit(spec, rows, listed);
    if ExtraSpace(spec) >= 0 { KeptLimit(spec, KeptOf(spec, rows)); }
  }

  lemma ListedLimit(spec: Spec, rows: seq<UploadedVersion>, listed: seq<UploadedVersion>)
    requires SpecFits(spec) && Limits(spec, KeptOf(spec, rows)) && multiset(listed) == multiset(rows)
             && IdsDistinct(rows)
    ensures var used := Sum(ExcessExcept(spec.maxOneVersion, Ids(DoomedOf(spec, rows))), listed);
            && Wrap(used) == used == Sum(Excess(spec.maxOneVersion), KeptOf(spec, rows))
            && (MaximumUpload64(spec, used).Allowed? <==> ExtraSpace(spec) >= 0)
  {
    QuotaStep(spec, rows, listed, DoomedOf(spec, rows));
  }

  lemma KeptLimit(spec: Spec, kept: seq<UploadedVersion>)
    requires SpecFits(spec) && Limits(spec, kept) && ExtraSpace(spec) >= 0
    ensures var used := Sum(Excess(spec.maxOneVersion), kept);
            0 <= used <= ExtraSpace(spec)
              && MaximumUpload64(spec, used) == Allowed(spec.maxOneVersion + ExtraSpace(spec) - used)
  {
    SumOfParts(Excess(spec.maxOneVersion), kept);
    ExtraSpaceExact(spec);
  }

  /** The copy completes exactly for the accepted streams, and stores what was delivered. */
  lemma ReceivedIff(spec: Spec, st: Store, c: string, x: Inputs, stuck: set<Uuid>)
    requires Applicable(spec, st, c, x) && Uploadable(spec, st.table, c, x.id, stuck)
    ensures Received(spec, x) <==> Accepted(spec, Rows(st.table, c), x.turns)
    ensures Received(spec, x) ==>
              var (outcome, content) := Copied(UploadLimit(spec, x).bytes, x);
              && content == Stream.Delivered(x.turns) && outcome.total == |content|
              && |content| <= UploadLimit(spec, x).bytes
  {
    PlanOfListed(spec, st, c, x, stuck);
    if UploadLimit(spec, x).Allowed? {
      var limit := UploadLimit(spec, x).bytes;
      Stream.StandardChainExact(limit, x.turns, BUFFER_LEN);
      Stream.CopyIsFaithful(Stream.StandardChain(limit), x.turns, BUFFER_LEN);
      assert Stream.StandardChain(limit)[1] == Stream.QuotaMaxFileSize(limit);
      Stream.CopiedWithinQuota(Stream.StandardChain(limit), x.turns, limit, BUFFER_LEN);
    }
  }

  lemma {:induction false} RowsOfSurvivors(table: seq<UploadedVersion>, gone: set<Uuid>, c: string)
    ensures Rows(Survivors(table, gone), c) == Survivors(Rows(table, c), gone)
  {
    if table != [] {
      var init, last := table[..|table| - 1], table[|table| - 1];
      RowsOfSurvivors(init, gone, c);
      RowsOfAppend(Survivors(init, gone), last, c);
      SurvivorsConcat(Rows(init, c), [last], gone);
    }
  }

  /** Clean-up of rows of `c` in the table: what it leaves of `c`, and of everything else. */
  lemma CleanedRows(st: Store, c: string, doomed: seq<UploadedVersion>, faults: seq<Faults>)
    requires |faults| == |doomed|
    requires forall u, v :: u in st.table && v in doomed && u.id == v.id ==> u.collectionId == c
    ensures var after := Cleaned(st, doomed, faults).table;
            && Rows(after, c) == Survivors(Rows(st.table, c), DeletedIds(doomed, faults))
            && forall d :: d != c ==> Rows(after, d) == Rows(st.table, d)
  {
    CleanedTable(st, doomed, faults);
    DeletedOrStuck(doomed, faults);
    forall d
      ensures Rows(Cleaned(st, doomed, faults).table, d) == Survivors(Rows(st.table, d), DeletedIds(doomed, faults))
    {
      RowsOfSurvivors(st.table, DeletedIds(doomed, faults), d);
    }
    forall d | d != c
      ensures Rows(Cleaned(st, doomed, faults).table, d) == Rows(st.table, d)
    {
      forall u | u in Rows(st.table, d)
        ensures u.id !in Ids(doomed)
      {
        RowsMember(st.table, d, u);
      }
      SurvivorsAll(Rows(st.table, d), DeletedIds(doomed, faults));
    }
  }

  /** The version is not in the registry, so discarding it changes no row. */
  lemma DiscardedTable(st: Store, v: UploadedVersion, faults: Faults)
    requires forall u :: u in st.table ==> u.id != v.id
    ensures Deleted(st, v, faults).table == st.table
  {
    WithoutAbsent(st.table, v.id);
  }

  /** From the complete copy on. */
  lemma AfterCopyRows(st: Store, c: string, v: UploadedVersion, doomed: seq<UploadedVersion>, x: Inputs)
    requires |x.faults| == |doomed| && v.collectionId == c && forall u :: u in st.table ==> u.id != v.id
    requires forall u, w :: u in st.table && w in st.table && u.id == w.id ==> u == w
    requires forall w :: w in doomed ==> w in Rows(st.table, c)
    ensures var rows, after := Rows(st.table, c), AfterCopy(st, v, doomed, x).table;
            && Rows(after, c) == (if x.fate.Unread? || x.fate.Cancelled? then rows
                                  else Survivors(rows + (if x.fate.Registers? then [v] else []),
                                    DeletedIds(doomed, x.faults)))
            && forall d :: d != c ==> Rows(after, d) == Rows(st.table, d)
  {
    DiscardedTable(st, v, x.discard);
    forall w | w in doomed
      ensures w in st.table && w.collectionId == c
    {
      RowsMember(st.table, c, w);
    }
    var registered := Store(st.table + [v], st.blobs);
    forall d
      ensures Rows(registered.table, d) == if d == c then Rows(st.table, d) + [v] else Rows(st.table, d)
    {
      RowsOfAppend(st.table, v, d);
    }
    assert Rows(st.table, c) + [] == Rows(st.table, c);
    if x.fate.Registers? {
      CleanedRows(registered, c, doomed, x.faults);
    } else if x.fate.Unregistered? {
      CleanedRows(Deleted(st, v, x.discard), c, doomed, x.faults);
    }
  }

  /** The whole upload: the rows it leaves of its own collection, and that it touches no other. */
  lemma EffectRows(spec: Spec, st: Store, c: string, x: Inputs, stuck: set<Uuid>)
    requires Applicable(spec, st, c, x) && Uploadable(spec, st.table, c, x.id, stuck)
    ensures |x.faults| == |DoomedOf(spec, Rows(st.table, c))|
    ensures Rows(Effect(spec, st, c, x).table, c) == RowsAfter(spec, Rows(st.table, c), c, x)
    ensures forall d :: d != c ==> Rows(Effect(spec, st, c, x).table, d) == Rows(st.table, d)
  {
    var rows := Rows(st.table, c);
    PlanOfListed(spec, st, c, x, stuck);
    ReceivedIff(spec, st, c, x, stuck);
    if UploadLimit(spec, x).Allowed? {
      var v := NewVersion(spec, rows, c, x.id);
      var (outcome, content) := Copied(UploadLimit(spec, x).bytes, x);
      var written := Store(st.table, st.blobs[Path(v) := content]);
      DiscardedTable(written, v, x.discard);
      if outcome.Copied? {
        AfterCopyRows(written, c, v.(filesize := outcome.total), DoomedOf(spec, rows), x);
      }
    }
  }

  lemma CleanedStep(rows: seq<UploadedVersion>, stuck: set<Uuid>, head: UploadedVersion, rest: seq<UploadedVersion>,
      f: Faults, faults: seq<Faults>)
    requires |faults| == |rest|
    ensures var rows' := if f.rowFails then rows else Without(rows, head.id);
            Survivors(rows', DeletedIds(rest, faults)) == Survivors(rows, DeletedIds([head] + rest, [f] + faults))
    ensures var stuck' := if f.rowFails then stuck + {head.id} else stuck;
            stuck' + StuckIds(rest, faults) == stuck + StuckIds([head] + rest, [f] + faults)
  {
    assert ([head] + rest)[1..] == rest && ([f] + faults)[1..] == faults;
    SurvivorsOfWithout(rows, head.id, DeletedIds(rest, faults));
    assert DeletedIds(rest, faults) + {head.id} == {head.id} + DeletedIds(rest, faults);
    assert {} + DeletedIds(rest, faults) == DeletedIds(rest, faults);
  }

  /** The clean-up brings an orderly collection to rest, whatever fails. */
  lemma {:induction false} CleanedOrderly(spec: Spec, rows: seq<UploadedVersion>, stuck: set<Uuid>,
      pending: seq<UploadedVersion>, faults: seq<Faults>)
    requires spec.maxBackups >= 1 && |faults| == |pending| && IdsDistinct(rows) && Orderly(spec, rows, stuck, pending)
    ensures Settled(spec, Survivors(rows, DeletedIds(pending, faults)), stuck + StuckIds(pending, faults))
    decreases |pending|, 0
  {
    if pending == [] {
      SurvivorsAll(rows, {});
      assert stuck + Ids([]) == stuck + {};
    } else {
      var head, rest, f := pending[0], pending[1..], faults[0];
      assert pending == [head] + rest && faults == [f] + faults[1..];
      CleanedStep(rows, stuck, head, rest, f, faults[1..]);
      CleanedOrderlyRest(spec, rows, stuck, head, rest, f, faults[1..]);
    }
  }

  lemma {:induction false} CleanedOrderlyRest(spec: Spec, rows: seq<UploadedVersion>, stuck: set<Uuid>,
      head: UploadedVersion, rest: seq<UploadedVersion>,
                                              f: Faults, faults: seq<Faults>)
    requires spec.maxBackups >= 1 && |faults| == |rest| && IdsDistinct(rows)
             && Orderly(spec, rows, stuck, [head] + rest)
    ensures var rows' := if f.rowFails then rows else Without(rows, head.id);
            var stuck' := if f.rowFails then stuck + {head.id} else stuck;
            Settled(spec, Survivors(rows', DeletedIds(rest, faults)), stuck' + StuckIds(rest, faults))
    decreases |rest|, 1
  {
    var rows' := if f.rowFails then rows else Without(rows, head.id);
    var stuck' := if f.rowFails then stuck + {head.id} else stuck;
    assert head in [head] + rest;
    HeadDoneOrderly(spec, rows, stuck, rows', stuck', head, rest);
    WithoutDistinct(rows, head);
    CleanedOrderly(spec, rows', stuck', rest, faults);
  }

  lemma WithoutDistinct(rows: seq<UploadedVersion>, head: UploadedVersion)
    requires IdsDistinct(rows) && head in rows
    ensures IdsDistinct(Without(rows, head.id))
  {
    var j :| 0 <= j < |rows| && rows[j] == head;
    WithoutAt(rows, j);
  }

  /** The versions whose rows an upload fails to delete. */
  ghost function StuckBy(spec: Spec, rows: seq<UploadedVersion>, x: Inputs): set<Uuid>
    requires spec.maxBackups >= 1 && |x.faults| == |DoomedOf(spec, rows)|
  {
    if !Accepted(spec, rows, x.turns) || x.fate.Unread? || x.fate.Cancelled? then {}
    else StuckIds(DoomedOf(spec, rows), x.faults)
  }

  /**
   * Whatever an upload comes to, the collection is left within its limits but for the rows that could not be deleted.
   */
  lemma EffectSettled(spec: Spec, st: Store, c: string, x: Inputs, stuck: set<Uuid>)
    requires Applicable(spec, st, c, x) && Uploadable(spec, st.table, c, x.id, stuck)
    ensures |x.faults| == |DoomedOf(spec, Rows(st.table, c))|
    ensures Settled(spec, Rows(Effect(spec, st, c, x).table, c), stuck + StuckBy(spec, Rows(st.table, c), x))
  {
    EffectRows(spec, st, c, x, stuck);
    var rows := Rows(st.table, c);
    assert stuck + {} == stuck;
    if Accepted(spec, rows, x.turns) {
      if x.fate.Registers? { RegisteredSettled(spec, st, c, x, stuck); }
      if x.fate.Unregistered? { LostSettled(spec, st, c, x, stuck); }
    }
  }

  lemma RegisteredSettled(spec: Spec, st: Store, c: string, x: Inputs, stuck: set<Uuid>)
    requires Applicable(spec, st, c, x) && Uploadable(spec, st.table, c, x.id, stuck)
    requires |x.faults| == |DoomedOf(spec, Rows(st.table, c))| && Accepted(spec, Rows(st.table, c), x.turns)
             && x.fate.Registers?
    ensures Settled(spec, RowsAfter(spec, Rows(st.table, c), c, x),
            stuck + StuckIds(DoomedOf(spec, Rows(st.table, c)), x.faults))
  {
    RowsDistinct(st.table, c);
    NewIdDistinct(st.table, c, Uploaded(spec, Rows(st.table, c), c, x));
    NewRowSettled(spec, Rows(st.table, c), Uploaded(spec, Rows(st.table, c), c, x), x.turns, x.faults, stuck);
  }

  lemma NewRowSettled(spec: Spec, rows: seq<UploadedVersion>, v: UploadedVersion, turns: seq<Stream.Turn>,
      faults: seq<Faults>, stuck: set<Uuid>)
    requires spec.maxBackups >= 1 && Settled(spec, rows, stuck) && Ascending(rows) && IdsDistinct(rows)
             && IdsDistinct(rows + [v])
    requires v.id !in stuck && (forall u :: u in rows ==> u.id != v.id) && |faults| == |DoomedOf(spec, rows)|
    requires Accepted(spec, rows, turns) && v.filesize == |Stream.Delivered(turns)|
    ensures Settled(spec, Survivors(rows + [v], DeletedIds(DoomedOf(spec, rows), faults)),
            stuck + StuckIds(DoomedOf(spec, rows), faults))
  {
    NothingPending(spec, rows, stuck);
    KeptWithinLimits(spec, rows, stuck);
    AcceptedAffords(spec, rows, turns);
    NewRowOrderly(spec, rows, stuck, DoomedOf(spec, rows), v);
    CleanedOrderly(spec, rows + [v], stuck, DoomedOf(spec, rows), faults);
  }

  lemma LostSettled(spec: Spec, st: Store, c: string, x: Inputs, stuck: set<Uuid>)
    requires Applicable(spec, st, c, x) && Uploadable(spec, st.table, c, x.id, stuck)
    requires |x.faults| == |DoomedOf(spec, Rows(st.table, c))| && Accepted(spec, Rows(st.table, c), x.turns)
             && x.fate.Unregistered?
    ensures Settled(spec, RowsAfter(spec, Rows(st.table, c), c, x),
            stuck + StuckIds(DoomedOf(spec, Rows(st.table, c)), x.faults))
  {
    RowsDistinct(st.table, c);
    assert Rows(st.table, c) + [] == Rows(st.table, c);
    NoRowSettled(spec, Rows(st.table, c), x.faults, stuck);
  }

  lemma NoRowSettled(spec: Spec, rows: seq<UploadedVersion>, faults: seq<Faults>, stuck: set<Uuid>)
    requires spec.maxBackups >= 1 && Settled(spec, rows, stuck) && Ascending(rows) && IdsDistinct(rows)
    requires |faults| == |DoomedOf(spec, rows)|
    ensures Settled(spec, Survivors(rows, DeletedIds(DoomedOf(spec, rows), faults)),
            stuck + StuckIds(DoomedOf(spec, rows), faults))
  {
    NothingPending(spec, rows, stuck);
    LostOrderly(spec, rows, stuck, DoomedOf(spec, rows));
    CleanedOrderly(spec, rows, stuck, DoomedOf(spec, rows), faults);
  }

  lemma SurvivorsCons(head: UploadedVersion, rest: seq<UploadedVersion>, gone: set<Uuid>)
    ensures Survivors([head] + rest, gone) == (if head.id in gone then [] else [head]) + Survivors(rest, gone)
  {
    SurvivorsConcat([head], rest, gone);
  }

  lemma SurvivorsOfThree(a: UploadedVersion, b: UploadedVersion, c: UploadedVersion, gone: set<Uuid>)
    requires c.id !in gone
    ensures Survivors([a, b, c], gone) == (if a.id in gone then [] else [a]) + (if b.id in gone then [] else [b]) + [c]
    ensures Survivors([a, c], gone) == (if a.id in gone then [] else [a]) + [c]
  {
    assert [a, b, c] == [a] + ([b] + [c]) && [a, c] == [a] + [c];
    SurvivorsCons(b, [c], gone);
    SurvivorsCons(a, [b] + [c], gone);
    SurvivorsCons(a, [c], gone);
  }

  lemma SumOfTwo(w: UploadedVersion -> int, a: UploadedVersion, b: UploadedVersion)
    ensures Sum(w, [a, b]) == w(a) + w(b) && Sum(w, [b]) == w(b)
  {
    assert [a, b] == [a] + [b];
    SumConcat(w, [a], [b]);
  }

  /**
   * Why the limits are about the live versions: `a` is left over from an earlier clean-up of a collection of two, a
   * registration is lost, and the clean-up fails on `a` again. Two rows are left, above the extra space if `a` and `c`
   * are; the live one is within it.
   */
  lemma LeftoverBesideLive(spec: Spec, a: UploadedVersion, b: UploadedVersion, c: UploadedVersion)
    requires spec.maxBackups == 2 && IdsDistinct([a, b, c])
    requires var w := Excess(spec.maxOneVersion); w(b) + w(c) <= ExtraSpace(spec) < w(a) + w(c)
    ensures var left := Survivors([a, b, c],
            DeletedIds(DoomedOf(spec, [a, b, c]), [Faults(true, false), Faults(false, false)]));
            && Settled(spec, [a, b, c], {a.id}) && left == [a, c]
            && !Limits(spec, left) && Limits(spec, Survivors(left, {a.id}))
  {
    var w, rows, faults := Excess(spec.maxOneVersion), [a, b, c], [Faults(true, false), Faults(false, false)];
    assert rows[0].id != rows[1].id && rows[0].id != rows[2].id && rows[1].id != rows[2].id;
    assert DoomedOf(spec, rows) == [a, b];
    assert DeletedIds([b], [Faults(false, false)]) == {b.id};
    assert [a, b][1..] == [b] && faults[1..] == [Faults(false, false)];
    assert DeletedIds([a, b], faults) == {b.id};
    SurvivorsOfThree(a, b, c, {b.id});
    SurvivorsOfThree(a, b, c, {a.id});
    SumOfTwo(w, a, c);
    SumOfTwo(w, b, c);
  }

  /**
   * When every row delete works, exactly the kept rows and the new one are left, whatever an earlier clean-up left
   * behind.
   */
  lemma UndisturbedRows(spec: Spec, rows: seq<UploadedVersion>, c: string, x: Inputs)
    requires spec.maxBackups >= 1 && |x.faults| == |DoomedOf(spec, rows)| && forall f :: f in x.faults ==> !f.rowFails
    requires Accepted(spec, rows, x.turns) && (x.fate.Registers? || x.fate.Unregistered?)
    requires IdsDistinct(rows + [Uploaded(spec, rows, c, x)])
    ensures RowsAfter(spec, rows, c, x) == KeptOf(spec, rows) + if x.fate.Registers? then [Uploaded(spec, rows, c, x)]
            else []
  {
    var v := Uploaded(spec, rows, c, x);
    NothingStuck(DoomedOf(spec, rows), x.faults);
    DistinctPrefix(rows, v);
    DoomedGone(spec, rows, []);
    DoomedGone(spec, rows, [v]);
  }

  lemma DoomedGone(spec: Spec, rows: seq<UploadedVersion>, tail: seq<UploadedVersion>)
    requires spec.maxBackups >= 1 && IdsDistinct(rows + tail)
    ensures Survivors(rows + tail, Ids(DoomedOf(spec, rows))) == KeptOf(spec, rows) + tail
  {
    assert rows + tail == DoomedOf(spec, rows) + (KeptOf(spec, rows) + tail);
    PrefixGone(DoomedOf(spec, rows), KeptOf(spec, rows) + tail);
  }

  lemma DistinctPrefix(rows: seq<UploadedVersion>, v: UploadedVersion)
    requires IdsDistinct(rows + [v])
    ensures IdsDistinct(rows + [])
  {
    assert rows + [] == rows;
    assert forall i :: 0 <= i < |rows| ==> rows[i] == (rows + [v])[i];
  }

  lemma PrefixGone(doomed: seq<UploadedVersion>, rest: seq<UploadedVersion>)
    requires IdsDistinct(doomed + rest)
    ensures Survivors(doomed + rest, Ids(doomed)) == rest
  {
    SurvivorsConcat(doomed, rest, Ids(doomed));
    SurvivorsNone(doomed, Ids(doomed));
    forall v | v in rest
      ensures v.id !in Ids(doomed)
    {
      var j :| 0 <= j < |rest| && rest[j] == v;
      assert (doomed + rest)[|doomed| + j] == v;
      assert forall i :: 0 <= i < |doomed| ==> (doomed + rest)[i] == doomed[i];
    }
    SurvivorsAll(rest, Ids(doomed));
  }

  lemma NewIdDistinct(table: seq<UploadedVersion>, c: string, v: UploadedVersion)
    requires IdsDistinct(Rows(table, c)) && forall u :: u in table ==> u.id != v.id
    ensures IdsDistinct(Rows(table, c) + [v]) && forall u :: u in Rows(table, c) ==> u.id != v.id
  {
    forall u | u in Rows(table, c)
      ensures u.id != v.id
    {
      RowsMember(table, c, u);
    }
  }

  lemma AcceptedAffords(spec: Spec, rows: seq<UploadedVersion>, turns: seq<Stream.Turn>)
    requires spec.maxBackups >= 1 && Accepted(spec, rows, turns)
    requires Limits(spec, KeptOf(spec, rows))
    ensures Affords(spec, rows, DoomedOf(spec, rows), |Stream.Delivered(turns)|)
  {
    var room := ExtraSpace(spec) - Sum(Excess(spec.maxOneVersion), KeptOf(spec, rows));
    var e: nat :| Stream.CalmUntil(turns, e)
      && Stream.AcceptsRest(turns, e, 0, 0, seq(BUFFER_LEN, _ => 0), spec.maxOneVersion + room);
    assert room >= 0;
  }

  /**
   * A registered upload stores exactly the delivered bytes at the path of its version, and no clean-up removes them.
   */
  lemma RegisteredIsStored(spec: Spec, st: Store, c: string, x: Inputs, stuck: set<Uuid>)
    requires Applicable(spec, st, c, x) && Uploadable(spec, st.table, c, x.id, stuck)
    requires Received(spec, x) && x.fate.Registers?
    ensures var p := Path(NewVersion(spec, Rows(st.table, c), c, x.id));
            p in Effect(spec, st, c, x).blobs && Effect(spec, st, c, x).blobs[p] == Stream.Delivered(x.turns)
  {
    var rows := Rows(st.table, c);
    PlanOfListed(spec, st, c, x, stuck);
    ReceivedIff(spec, st, c, x, stuck);
    var v := NewVersion(spec, rows, c, x.id);
    var (outcome, content) := Copied(UploadLimit(spec, x).bytes, x);
    var version := v.(filesize := outcome.total);
    assert Path(version) == Path(v);
    var registered := Store(st.table + [version], st.blobs[Path(v) := content]);
    assert Effect(spec, st, c, x) == Cleaned(registered, DoomedOf(spec, rows), x.faults);
    CleanedBlobs(registered, DoomedOf(spec, rows), x.faults, Path(v));
    assert forall k :: 0 <= k < |DoomedOf(spec, rows)| ==> DoomedOf(spec, rows)[k] in rows;
  }

  // ---------------------------------------------------------------- the blobs an upload leaves

  /** Every deletion of a doomed version that is stored at `p` fails. */
  ghost predicate AllFailAt(doomed: seq<UploadedVersion>, faults: seq<Faults>, p: string)
    requires |faults| == |doomed|
  {
    forall k :: 0 <= k < |doomed| && Path(doomed[k]) == p ==> faults[k].blobFails
  }

  /**
   * Which paths hold a blob after an upload. The new path does if the upload is registered or its size could not be
   * read, and otherwise only where discarding it failed. Any other does if it did before, unless the upload got as far
   * as the clean-up and the path is that of a doomed version whose deletion works.
   */
  ghost predicate BlobAfter(spec: Spec, st: Store, c: string, x: Inputs, p: string)
    requires spec.maxBackups >= 1 && |x.faults| == |DoomedOf(spec, Rows(st.table, c))|
  {
    var rows := Rows(st.table, c);
    var received := Accepted(spec, rows, x.turns);
    if p == Path(NewVersion(spec, rows, c, x.id)) then
      if ExtraSpace(spec) < 0 then p in st.blobs
      else (received && (x.fate.Registers? || x.fate.Unread?)) || x.discard.blobFails
    else
      p in st.blobs && (received && (x.fate.Registers? || x.fate.Unregistered?) ==>
        AllFailAt(DoomedOf(spec, rows), x.faults, p))
  }

  /** From the complete copy on. */
  lemma AfterCopyBlobs(st: Store, v: UploadedVersion, doomed: seq<UploadedVersion>, x: Inputs, p: string)
    requires |x.faults| == |doomed| && Path(v) in st.blobs && forall w :: w in doomed ==> Path(w) != Path(v)
    ensures var blobs, cleans := AfterCopy(st, v, doomed, x).blobs, x.fate.Registers? || x.fate.Unregistered?;
            && (p == Path(v) ==> (p in blobs <==> x.fate.Registers? || x.fate.Unread? || x.discard.blobFails))
            && (p != Path(v) ==> (p in blobs <==> p in st.blobs && (cleans ==> AllFailAt(doomed, x.faults, p))))
            && (p in blobs ==> blobs[p] == st.blobs[p])
  {
    assert forall k :: 0 <= k < |doomed| ==> doomed[k] in doomed;
    if x.fate.Registers? {
      CleanedBlobs(Store(st.table + [v], st.blobs), doomed, x.faults, p);
    } else if x.fate.Unregistered? {
      CleanedBlobs(Deleted(st, v, x.discard), doomed, x.faults, p);
    }
  }

  /** Whatever an upload comes to: exactly these blobs are there afterwards, and all but the new one as they were. */
  lemma EffectBlobs(spec: Spec, st: Store, c: string, x: Inputs, stuck: set<Uuid>, p: string)
    requires Applicable(spec, st, c, x) && Uploadable(spec, st.table, c, x.id, stuck)
    ensures |x.faults| == |DoomedOf(spec, Rows(st.table, c))|
    ensures p in Effect(spec, st, c, x).blobs <==> BlobAfter(spec, st, c, x, p)
    ensures p in Effect(spec, st, c, x).blobs && p != Path(NewVersion(spec, Rows(st.table, c), c, x.id)) ==>
              Effect(spec, st, c, x).blobs[p] == st.blobs[p]
    ensures ExtraSpace(spec) < 0 ==> Effect(spec, st, c, x) == st
    ensures ExtraSpace(spec) >= 0 && p in Effect(spec, st, c, x).blobs
            && p == Path(NewVersion(spec, Rows(st.table, c), c, x.id)) ==>
              && Effect(spec, st, c, x).blobs[p] <= Stream.Delivered(x.turns)
              && (Accepted(spec, Rows(st.table, c), x.turns) ==>
                Effect(spec, st, c, x).blobs[p] == Stream.Delivered(x.turns))
  {
    var rows := Rows(st.table, c);
    var v := NewVersion(spec, rows, c, x.id);
    PlanOfListed(spec, st, c, x, stuck);
    ReceivedIff(spec, st, c, x, stuck);
    if UploadLimit(spec, x).Allowed? {
      var (outcome, content) := Copied(UploadLimit(spec, x).bytes, x);
      var written, version := Store(st.table, st.blobs[Path(v) := content]), v.(filesize := outcome.total);
      assert Path(version) == Path(v);
      DoomedElsewhere(spec, rows, v);
      Stream.CopyIsFaithful(Stream.StandardChain(UploadLimit(spec, x).bytes), x.turns, BUFFER_LEN);
      if outcome.Copied? {
        AfterCopyBlobs(written, version, DoomedOf(spec, rows), x, p);
      }
    }
  }

  lemma DoomedElsewhere(spec: Spec, rows: seq<UploadedVersion>, v: UploadedVersion)
    requires spec.maxBackups >= 1 && forall u :: u in rows ==> Path(u) != Path(v)
    ensures forall w :: w in DoomedOf(spec, rows) ==> Path(w) != Path(v)
  {
  }

  /** The paths whose blob an upload may leave behind: failed deletions, and the new one if it was never registered. */
  function FailedPaths(versions: seq<UploadedVersion>, faults: seq<Faults>): set<string>
    requires |faults| == |versions|
  {
    if versions == [] then {}
    else (if faults[0].blobFails then {Path(versions[0])} else {}) + FailedPaths(versions[1..], faults[1..])
  }

  lemma {:induction false} NothingFailed(versions: seq<UploadedVersion>, faults: seq<Faults>)
    requires |faults| == |versions| && forall f :: f in faults ==> !f.blobFails
    ensures FailedPaths(versions, faults) == {}
    decreases |versions|
  {
    if versions != [] {
      assert faults[0] in faults;
      NothingFailed(versions[1..], faults[1..]);
    }
  }

  function NoFaults(n: nat): (faults: seq<Faults>)
    ensures |faults| == n && forall f :: f in faults ==> !f.rowFails && !f.blobFails
  {
    seq(n, _ => Faults(false, false))
  }

  function LeftBy(doomed: seq<UploadedVersion>, v: UploadedVersion, x: Inputs): set<string>
    requires |x.faults| == |doomed|
  {
    FailedPaths(doomed, x.faults) + if x.fate.Unread? || x.discard.blobFails then {Path(v)} else {}
  }
}

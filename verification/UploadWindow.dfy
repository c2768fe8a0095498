/** Version numbers over whole runs: the live versions form a sliding window. */
module UploadWindow {
  import opened Options
  import opened Versions
  import opened Quota
  import opened UploadProtocol
  import opened UploadSafety

  function Min(a: int, b: int): int {
    if a < b then a else b
  }

  /** `n` versions stay after `k` registrations: as many as the limit allows, or one less after a lost registration. */
  ghost predicate Level(spec: Spec, k: nat, n: int, lost: bool) {
    && Min(k, spec.maxBackups - 1) <= n <= Min(k, spec.maxBackups)
    && (!lost ==> n == Min(k, spec.maxBackups))
  }

  /** The numbers are consecutive and end at `k`. */
  ghost predicate EndsAt(rows: seq<UploadedVersion>, k: nat) {
    |rows| <= k && forall j :: 0 <= j < |rows| ==> rows[j].versionNumber == k - |rows| + 1 + j
  }

  /** The versions that stay once those in `gone` are counted out are the last ones of `k` registrations. */
  ghost predicate Last(spec: Spec, rows: seq<UploadedVersion>, gone: set<Uuid>, k: nat, lost: bool) {
    EndsAt(Survivors(rows, gone), k) && Level(spec, k, |Survivors(rows, gone)|, lost)
  }

  /** Numbering is safe: at least two versions are kept, or no registration was lost. */
  predicate Safe(spec: Spec, lost: bool) {
    spec.maxBackups >= 2 || (spec.maxBackups == 1 && !lost)
  }

  ghost predicate HolderLast(spec: Spec, s: State, c: string, i: nat)
    requires i in s.clients
  {
    s.clients[i].collection == c && Holds(s.clients[i].phase) ==>
      Last(spec, Rows(s.table, c), s.stuck + Ids(Pending(s.clients[i].phase)), Registered(s, c), c in s.lost)
  }

  ghost predicate Window(spec: Spec, s: State, c: string) {
    Safe(spec, c in s.lost) ==>
      && HighestNumber(Rows(s.table, c)) == Registered(s, c)
      && (forall i :: i in s.clients ==> HolderLast(spec, s, c, i))
      && (Quiet(s, c) ==> Last(spec, Rows(s.table, c), s.stuck, Registered(s, c), c in s.lost))
  }

  ghost predicate Windows(cfg: Config, s: State) {
    forall c :: c in cfg.collections ==> Window(cfg.collections[c], s, c)
  }

  // ---------------------------------------------------------------- frames

  /** What a step of another client, or of no consequence, leaves alone about collection `c`. */
  ghost predicate SameCounts(s: State, s': State, c: string) {
    && Rows(s'.table, c) == Rows(s.table, c) && Registered(s', c) == Registered(s, c) && (c in s'.lost <==> c in s.lost)
    && forall v :: v in Rows(s.table, c) ==> (v.id in s'.stuck <==> v.id in s.stuck)
  }

  lemma LastSame(spec: Spec, rows: seq<UploadedVersion>, gone: set<Uuid>, other: set<Uuid>, k: nat, lost: bool)
    requires forall v :: v in rows ==> (v.id in gone <==> v.id in other)
    ensures Last(spec, rows, gone, k, lost) <==> Last(spec, rows, other, k, lost)
  {
    SurvivorsSame(rows, gone, other);
  }

  /** A client whose part in the window is the same before and after. */
  lemma HolderFrame(spec: Spec, s: State, s': State, c: string, j: nat)
    requires SameCounts(s, s', c) && j in s.clients && j in s'.clients && HolderLast(spec, s, c, j)
    requires s'.clients[j].collection == s.clients[j].collection
    requires s.clients[j].collection == c && Holds(s'.clients[j].phase) ==>
               Holds(s.clients[j].phase) && Pending(s'.clients[j].phase) == Pending(s.clients[j].phase)
    ensures HolderLast(spec, s', c, j)
  {
    var pending := Ids(Pending(s'.clients[j].phase));
    LastSame(spec, Rows(s.table, c), s.stuck + pending, s'.stuck + pending, Registered(s, c), c in s.lost);
  }

  /** What client `i` does without taking, giving up or working off anything. */
  ghost predicate SamePart(s: State, s': State, i: nat)
    requires i in s.clients && i in s'.clients
  {
    var was, ph := s.clients[i].phase, s'.clients[i].phase;
    || (!Holds(was) && !Holds(ph))
    || (Holds(was) && Holds(ph) && Pending(was) == Pending(ph))
    || (Holds(was) && !Holds(ph) && Pending(was) == [])
  }

  lemma QuietFrame(spec: Spec, s: State, s': State, c: string, i: nat)
    requires SameCounts(s, s', c) && OnlyMoves(s, s', i) && Safe(spec, c in s.lost) && Window(spec, s, c)
    requires s.clients[i].collection == c ==> SamePart(s, s', i)
    ensures Quiet(s', c) ==> Last(spec, Rows(s'.table, c), s'.stuck, Registered(s', c), c in s'.lost)
  {
    LastSame(spec, Rows(s.table, c), s.stuck, s'.stuck, Registered(s, c), c in s.lost);
    if Quiet(s', c) && !Quiet(s, c) {
      var j :| j in s.clients && s.clients[j].collection == c && Holds(s.clients[j].phase);
      assert j in s'.clients && j == i && HolderLast(spec, s, c, j);
      assert s.stuck + Ids([]) == s.stuck;
    }
  }

  lemma WindowFrame(spec: Spec, s: State, s': State, c: string, i: nat)
    requires Window(spec, s, c) && SameCounts(s, s', c) && OnlyMoves(s, s', i)
    requires s.clients[i].collection == c ==> SamePart(s, s', i)
    ensures Window(spec, s', c)
  {
    if Safe(spec, c in s.lost) {
      QuietFrame(spec, s, s', c, i);
      forall j | j in s'.clients
        ensures HolderLast(spec, s', c, j)
      {
        HolderFrame(spec, s, s', c, j);
      }
    }
  }

  /** No other client holds the collection of client `i`. */
  ghost predicate Alone(s: State, i: nat)
    requires i in s.clients
  {
    forall j :: j in s.clients && j != i && Holds(s.clients[j].phase) ==>
      s.clients[j].collection != s.clients[i].collection
  }

  lemma HolderAlone(s: State, i: nat)
    requires LocksOk(s) && i in s.clients && Holds(s.clients[i].phase)
    ensures Alone(s, i)
  {
  }

  /** The window of the acting holder's own collection depends on no other client. */
  lemma HolderWindow(spec: Spec, s: State, s': State, i: nat)
    requires OnlyMoves(s, s', i) && Alone(s, i) && Holds(s'.clients[i].phase)
    requires var c := s.clients[i].collection;
             Safe(spec, c in s'.lost) ==>
               HighestNumber(Rows(s'.table, c)) == Registered(s', c) && HolderLast(spec, s', c, i)
    ensures Window(spec, s', s.clients[i].collection)
  {
    var c := s.clients[i].collection;
    assert !Quiet(s', c);
    forall j | j in s'.clients && j != i && s'.clients[j].collection == c
      ensures !Holds(s'.clients[j].phase)
    {
      assert s'.clients[j] == s.clients[j];
    }
  }

  // ---------------------------------------------------------------- steps that slide the window

  /** The end of a window is a window. */
  lemma EndsAtSuffix(rows: seq<UploadedVersion>, n: nat, k: nat)
    requires EndsAt(rows, k) && n <= |rows|
    ensures EndsAt(rows[n..], k)
  {
  }

  /** How many versions a plan keeps: of `rows`, `live` of which are live, all but the doomed ones. */
  lemma LevelOfKept(spec: Spec, rows: nat, live: nat, kept: nat, k: nat, lost: bool)
    requires Safe(spec, lost) && Level(spec, k, live, lost) && kept <= live <= rows
             && kept == rows - DoomedCount(spec, rows)
    ensures Level(spec, k, kept, true) && Level(spec, k + 1, kept + 1, lost)
  {
    assert kept == Min(rows, spec.maxBackups - 1);
  }

  /** What a plan keeps of the window, with or without the new version. */
  lemma KeptLast(spec: Spec, rows: seq<UploadedVersion>, stuck: set<Uuid>, doomed: seq<UploadedVersion>, k: nat,
      lost: bool)
    requires Safe(spec, lost) && NewestStay(spec, rows, stuck) && IsPlan(spec, rows, doomed)
             && Last(spec, rows, stuck, k, lost)
    ensures var kept := rows[|doomed|..];
            && EndsAt(kept, k) && Level(spec, k, |kept|, true)
            && Level(spec, k + 1, |kept| + 1, lost)
  {
    var before := KeptSurvive(spec, rows, stuck);
    EndsAtSuffix(Survivors(rows, stuck), |before|, k);
    assert Survivors(rows, stuck)[|before|..] == rows[|doomed|..];
    SurvivorsShrink(rows, stuck, stuck);
    LevelOfKept(spec, |rows|, |Survivors(rows, stuck)|, |rows[|doomed|..]|, k, lost);
  }

  lemma AppendHighest(rows: seq<UploadedVersion>, v: UploadedVersion)
    requires v.versionNumber > HighestNumber(rows)
    ensures HighestNumber(rows + [v]) == v.versionNumber
  {
    assert v in rows + [v];
  }

  /** A registration slides the window by one. */
  lemma Slides(spec: Spec, rows: seq<UploadedVersion>, stuck: set<Uuid>, doomed: seq<UploadedVersion>,
      v: UploadedVersion, k: nat, lost: bool)
    requires Safe(spec, lost) && NewestStay(spec, rows, stuck) && IsPlan(spec, rows, doomed)
             && Last(spec, rows, stuck, k, lost)
    requires Survivors(rows + [v], stuck + Ids(doomed)) == rows[|doomed|..] + [v]
    requires HighestNumber(rows) == k && v.versionNumber == k + 1
    ensures Last(spec, rows + [v], stuck + Ids(doomed), k + 1, lost) && HighestNumber(rows + [v]) == k + 1
  {
    KeptLast(spec, rows, stuck, doomed, k, lost);
    AppendHighest(rows, v);
  }

  /** What the plan of a stored version comes to: the rows it keeps survive, with or without the new one. */
  ghost predicate PlanRows(spec: Spec, rows: seq<UploadedVersion>, stuck: set<Uuid>, ph: Phase)
    requires ph.Stored?
  {
    && NewestStay(spec, rows, stuck) && IsPlan(spec, rows, ph.doomed)
    && ph.version.versionNumber == HighestNumber(rows) + 1
    && Survivors(rows + [ph.version], stuck + Ids(ph.doomed)) == rows[|ph.doomed|..] + [ph.version]
    && Survivors(rows, stuck + Ids(ph.doomed)) == rows[|ph.doomed|..]
  }

  lemma PlanOfStored(cfg: Config, s: State, i: nat)
    requires Sound(cfg) && IdsOk(s) && i in s.clients && ClientOk(cfg, s, i) && RowsOk(cfg, s, s.clients[i].collection)
    requires s.clients[i].phase.Stored?
    ensures var c := s.clients[i].collection; PlanRows(cfg.collections[c], Rows(s.table, c), s.stuck,
            s.clients[i].phase)
  {
    var c, ph := s.clients[i].collection, s.clients[i].phase;
    RowIdsDistinct(cfg, s, c);
    assert VersionFresh(s, ph);
    forall u | u in Rows(s.table, c)
      ensures u.id != ph.version.id
    {
      RowsMember(s.table, c, u);
    }
    NewRowOrderly(cfg.collections[c], Rows(s.table, c), s.stuck, ph.doomed, ph.version);
    NothingPending(cfg.collections[c], Rows(s.table, c), s.stuck);
    PlanSettles(cfg.collections[c], Rows(s.table, c), s.stuck, ph.doomed);
  }

  /** A holder with nothing to delete finds the collection's window. */
  lemma HolderSeesLast(spec: Spec, s: State, i: nat)
    requires i in s.clients && Holds(s.clients[i].phase) && Pending(s.clients[i].phase) == []
    requires Window(spec, s, s.clients[i].collection) && Safe(spec, s.clients[i].collection in s.lost)
    ensures var c := s.clients[i].collection;
            && Last(spec, Rows(s.table, c), s.stuck, Registered(s, c), c in s.lost)
            && HighestNumber(Rows(s.table, c)) == Registered(s, c)
  {
    assert HolderLast(spec, s, s.clients[i].collection, i);
    assert s.stuck + Ids([]) == s.stuck;
  }

  lemma RegisterShape(s: State, i: nat)
    requires i in s.clients && RegisterStep(s, i, true).Some?
    requires s.clients[i].phase.version.collectionId == s.clients[i].collection
    ensures var s', c, ph := RegisterStep(s, i, true).value, s.clients[i].collection, s.clients[i].phase;
            && Rows(s'.table, c) == Rows(s.table, c) + [ph.version]
            && Registered(s', c) == Registered(s, c) + 1 && s'.lost == s.lost && s'.stuck == s.stuck
              && OnlyMoves(s, s', i)
            && Holds(s'.clients[i].phase) && Pending(s'.clients[i].phase) == ph.doomed
  {
    RowsOfAppend(s.table, s.clients[i].phase.version, s.clients[i].collection);
    PendingOf(s.clients[i].phase.doomed);
  }

  lemma RegisteredLast(spec: Spec, s: State, s': State, i: nat)
    requires i in s.clients && s.clients[i].phase.Stored? && RegisterStep(s, i, true) == Some(s')
    requires s.clients[i].phase.version.collectionId == s.clients[i].collection
    requires PlanRows(spec, Rows(s.table, s.clients[i].collection), s.stuck, s.clients[i].phase)
    requires var c := s.clients[i].collection;
             && Safe(spec, c in s.lost) && Last(spec, Rows(s.table, c), s.stuck, Registered(s, c), c in s.lost)
             && HighestNumber(Rows(s.table, c)) == Registered(s, c)
    ensures var c := s.clients[i].collection;
            HighestNumber(Rows(s'.table, c)) == Registered(s', c) && HolderLast(spec, s', c, i)
  {
    var c, ph := s.clients[i].collection, s.clients[i].phase;
    RegisterShape(s, i);
    Slides(spec, Rows(s.table, c), s.stuck, ph.doomed, ph.version, Registered(s, c), c in s.lost);
    assert s'.stuck + Ids(Pending(s'.clients[i].phase)) == s.stuck + Ids(ph.doomed);
  }

  lemma RegisterWindow(spec: Spec, s: State, i: nat)
    requires i in s.clients && Alone(s, i) && s.clients[i].phase.Stored?
    requires s.clients[i].phase.version.collectionId == s.clients[i].collection
    requires PlanRows(spec, Rows(s.table, s.clients[i].collection), s.stuck, s.clients[i].phase)
    requires Window(spec, s, s.clients[i].collection)
    ensures Window(spec, RegisterStep(s, i, true).value, s.clients[i].collection)
  {
    var s' := RegisterStep(s, i, true).value;
    RegisterShape(s, i);
    if Safe(spec, s.clients[i].collection in s.lost) {
      HolderSeesLast(spec, s, i);
      RegisteredLast(spec, s, s', i);
    }
    HolderWindow(spec, s, s', i);
  }

  lemma LostShape(s: State, i: nat)
    requires i in s.clients && RegisterStep(s, i, false).Some?
    ensures var s', c, ph := RegisterStep(s, i, false).value, s.clients[i].collection, s.clients[i].phase;
            && s'.table == s.table && s'.registrations == s.registrations && c in s'.lost && s'.stuck == s.stuck
            && OnlyMoves(s, s', i) && Holds(s'.clients[i].phase) && Pending(s'.clients[i].phase) == ph.doomed
  {
  }

  lemma LostRegistrationWindow(spec: Spec, s: State, i: nat)
    requires i in s.clients && Alone(s, i) && s.clients[i].phase.Stored?
    requires PlanRows(spec, Rows(s.table, s.clients[i].collection), s.stuck, s.clients[i].phase)
    requires Window(spec, s, s.clients[i].collection)
    ensures Window(spec, RegisterStep(s, i, false).value, s.clients[i].collection)
  {
    var c, ph := s.clients[i].collection, s.clients[i].phase;
    LostShape(s, i);
    if spec.maxBackups >= 2 {
      HolderSeesLast(spec, s, i);
      KeptLast(spec, Rows(s.table, c), s.stuck, ph.doomed, Registered(s, c), c in s.lost);
    }
    HolderWindow(spec, s, RegisterStep(s, i, false).value, i);
  }

  /** The newest row survives the clean-up, so the highest number stays. */
  lemma HighestStays(spec: Spec, rows: seq<UploadedVersion>, gone: set<Uuid>, head: UploadedVersion, k: nat, lost: bool)
    requires Safe(spec, lost) && Last(spec, rows, gone, k, lost) && HighestNumber(rows) == k >= 1 && head.id in gone
    ensures HighestNumber(Without(rows, head.id)) == k
  {
    var live := Survivors(rows, gone);
    var last := live[|live| - 1];
    SurvivorsMember(rows, gone, last);
    WithoutMember(rows, head.id, last);
    forall v | v in Without(rows, head.id)
      ensures v.versionNumber <= k
    {
      WithoutMember(rows, head.id, v);
    }
  }

  lemma HeadDoneLast(spec: Spec, rows: seq<UploadedVersion>, stuck: set<Uuid>, rows': seq<UploadedVersion>,
      stuck': set<Uuid>,
                     head: UploadedVersion, rest: seq<UploadedVersion>, k: nat, lost: bool)
    requires Safe(spec, lost) && HeadDone(rows, stuck, rows', stuck', head) && head in rows && head.versionNumber >= 1
    requires Last(spec, rows, stuck + Ids([head] + rest), k, lost) && HighestNumber(rows) == k
    ensures Last(spec, rows', stuck' + Ids(rest), k, lost) && HighestNumber(rows') == k
  {
    SurvivorsKept(rows, stuck, rows', stuck', head, rest);
    assert head in [head] + rest;
    HighestStays(spec, rows, stuck + Ids([head] + rest), head, k, lost);
  }

  lemma CleanRowShape(s: State, i: nat, ok: bool)
    requires i in s.clients && s.clients[i].phase.Cleaning? && DeleteRowStep(s, i, ok).Some?
    ensures var s', c, ph := DeleteRowStep(s, i, ok).value, s.clients[i].collection, s.clients[i].phase;
            && HeadDone(Rows(s.table, c), s.stuck, Rows(s'.table, c), s'.stuck, ph.head)
            && s'.registrations == s.registrations && s'.lost == s.lost && OnlyMoves(s, s', i)
            && Holds(s'.clients[i].phase) && Pending(s'.clients[i].phase) == ph.rest
  {
    RowsOfWithout(s.table, s.clients[i].phase.head.id, s.clients[i].collection);
  }

  /** The head of a clean-up is a row of its collection. */
  lemma HeadIsRow(cfg: Config, s: State, i: nat)
    requires i in s.clients && ClientOk(cfg, s, i) && s.clients[i].phase.Cleaning? && !s.clients[i].phase.rowGone
    requires RowsOk(cfg, s, s.clients[i].collection)
    ensures s.clients[i].phase.head in Rows(s.table, s.clients[i].collection)
            && s.clients[i].phase.head.versionNumber >= 1
  {
    assert s.clients[i].phase.head in [s.clients[i].phase.head] + s.clients[i].phase.rest;
  }

  lemma CleanRowWindow(cfg: Config, s: State, i: nat, ok: bool)
    requires i in s.clients && ClientOk(cfg, s, i) && s.clients[i].phase.Cleaning? && Alone(s, i)
    requires RowsOk(cfg, s, s.clients[i].collection)
    requires Window(cfg.collections[s.clients[i].collection], s, s.clients[i].collection)
             && DeleteRowStep(s, i, ok).Some?
    ensures Window(cfg.collections[s.clients[i].collection], DeleteRowStep(s, i, ok).value, s.clients[i].collection)
  {
    HeadIsRow(cfg, s, i);
    CleanedWindow(cfg.collections[s.clients[i].collection], s, i, ok);
  }

  lemma CleanedWindow(spec: Spec, s: State, i: nat, ok: bool)
    requires i in s.clients && s.clients[i].phase.Cleaning? && Alone(s, i) && DeleteRowStep(s, i, ok).Some?
    requires Window(spec, s, s.clients[i].collection)
    requires s.clients[i].phase.head in Rows(s.table, s.clients[i].collection)
             && s.clients[i].phase.head.versionNumber >= 1
    ensures Window(spec, DeleteRowStep(s, i, ok).value, s.clients[i].collection)
  {
    var c, ph, s' := s.clients[i].collection, s.clients[i].phase, DeleteRowStep(s, i, ok).value;
    CleanRowShape(s, i, ok);
    if Safe(spec, c in s.lost) {
      assert HolderLast(spec, s, c, i);
      HeadDoneLast(spec, Rows(s.table, c), s.stuck, Rows(s'.table, c), s'.stuck, ph.head, ph.rest, Registered(s, c),
        c in s.lost);
    }
    HolderWindow(spec, s, s', i);
  }

  // ---------------------------------------------------------------- every step

  /** Moves that change no row, no counter and no outstanding work. */
  lemma PlainMoveShape(cfg: Config, s: State, i: nat, move: Move)
    requires Configured(cfg) && i in s.clients && s.clients[i].collection in cfg.collections
             && Moved(cfg, s, i, move).Some?
    requires !move.Register? && !move.DeleteRow? && !move.InsertLock? && !move.DeleteBlob?
    ensures var s' := Moved(cfg, s, i, move).value;
            && s'.table == s.table && s'.registrations == s.registrations && s'.lost == s.lost && s'.stuck == s.stuck
            && OnlyMoves(s, s', i) && SamePart(s, s', i)
  {
  }

  lemma PlainMoveWindow(cfg: Config, s: State, i: nat, move: Move, c: string)
    requires Configured(cfg) && i in s.clients && s.clients[i].collection in cfg.collections
    requires c in cfg.collections && Window(cfg.collections[c], s, c) && Moved(cfg, s, i, move).Some?
    requires !move.Register? && !move.DeleteRow? && !move.InsertLock? && !move.DeleteBlob?
    ensures Window(cfg.collections[c], Moved(cfg, s, i, move).value, c)
  {
    PlainMoveShape(cfg, s, i, move);
    WindowFrame(cfg.collections[c], s, Moved(cfg, s, i, move).value, c, i);
  }

  /** Where the lock is free the collection is quiet, so the new holder starts from its window. */
  lemma InsertLockWindow(cfg: Config, s: State, i: nat, at: int, ok: bool, c: string)
    requires LocksOk(s) && i in s.clients && c in cfg.collections && Window(cfg.collections[c], s, c)
    requires InsertLockStep(s, i, at, ok, cfg.lockTime).Some?
    ensures Window(cfg.collections[c], InsertLockStep(s, i, at, ok, cfg.lockTime).value, c)
  {
    var s' := InsertLockStep(s, i, at, ok, cfg.lockTime).value;
    if s.clients[i].collection == c && Holds(s'.clients[i].phase) {
      assert LockId(c) !in s.locks && Quiet(s, c);
      assert s.stuck + Ids([]) == s.stuck;
      HolderWindow(cfg.collections[c], s, s', i);
    } else {
      WindowFrame(cfg.collections[c], s, s', c, i);
    }
  }

  lemma DeleteBlobShape(s: State, i: nat, ok: bool)
    requires i in s.clients && DeleteBlobStep(s, i, ok).Some?
    ensures var s' := DeleteBlobStep(s, i, ok).value;
            && s'.table == s.table && s'.registrations == s.registrations && s'.lost == s.lost && s'.stuck == s.stuck
            && OnlyMoves(s, s', i) && SamePart(s, s', i)
  {
    var ph := s.clients[i].phase;
    PendingOf(if ph.Discarding? then ph.doomed else ph.rest);
  }

  lemma DeleteBlobWindow(cfg: Config, s: State, i: nat, ok: bool, c: string)
    requires i in s.clients && c in cfg.collections && Window(cfg.collections[c], s, c)
             && DeleteBlobStep(s, i, ok).Some?
    ensures Window(cfg.collections[c], DeleteBlobStep(s, i, ok).value, c)
  {
    DeleteBlobShape(s, i, ok);
    WindowFrame(cfg.collections[c], s, DeleteBlobStep(s, i, ok).value, c, i);
  }

  lemma RegisterElsewhere(cfg: Config, s: State, i: nat, ok: bool, c: string)
    requires i in s.clients && c in cfg.collections && c != s.clients[i].collection
    requires RegisterStep(s, i, ok).Some? && Window(cfg.collections[c], s, c)
    requires s.clients[i].phase.version.collectionId == s.clients[i].collection
    ensures Window(cfg.collections[c], RegisterStep(s, i, ok).value, c)
  {
    RowsOfAppend(s.table, s.clients[i].phase.version, c);
    WindowFrame(cfg.collections[c], s, RegisterStep(s, i, ok).value, c, i);
  }

  /**
   * Deleting rows, or failing to, changes nothing about other collections; discarding an unregistered version nothing
   * at all.
   */
  lemma DeleteRowElsewhere(cfg: Config, s: State, i: nat, ok: bool, c: string)
    requires IdsOk(s) && i in s.clients && ClientOk(cfg, s, i)
    requires c != s.clients[i].collection || s.clients[i].phase.Discarding?
    requires DeleteRowStep(s, i, ok).Some?
    ensures SameCounts(s, DeleteRowStep(s, i, ok).value, c)
  {
    var s' := DeleteRowStep(s, i, ok).value;
    if s.clients[i].phase.Discarding? {
      WithoutAbsent(s.table, s.clients[i].phase.version.id);
    } else {
      HeadInTable(cfg, s, i);
      CleanRowElsewhere(s, s', i, ok);
      forall v | v in Rows(s.table, c)
        ensures v in s.table && v.collectionId == c
      {
        RowsMember(s.table, c, v);
      }
    }
  }

  lemma DeleteRowElsewhereWindow(cfg: Config, s: State, i: nat, ok: bool, c: string)
    requires i in s.clients && c in cfg.collections && Window(cfg.collections[c], s, c) && DeleteRowStep(s, i, ok).Some?
    requires c != s.clients[i].collection || s.clients[i].phase.Discarding?
    requires SameCounts(s, DeleteRowStep(s, i, ok).value, c)
    ensures Window(cfg.collections[c], DeleteRowStep(s, i, ok).value, c)
  {
    WindowFrame(cfg.collections[c], s, DeleteRowStep(s, i, ok).value, c, i);
  }

  lemma AnyRegisterWindow(cfg: Config, s: State, i: nat, ok: bool, c: string)
    requires Sound(cfg) && IdsOk(s) && i in s.clients && ClientOk(cfg, s, i) && Alone(s, i)
             && RowsOk(cfg, s, s.clients[i].collection)
    requires c in cfg.collections && Window(cfg.collections[c], s, c) && RegisterStep(s, i, ok).Some?
    ensures Window(cfg.collections[c], RegisterStep(s, i, ok).value, c)
  {
    if c != s.clients[i].collection { RegisterElsewhere(cfg, s, i, ok, c); }
    else {
      PlanOfStored(cfg, s, i);
      if ok { RegisterWindow(cfg.collections[c], s, i); } else { LostRegistrationWindow(cfg.collections[c], s, i); }
    }
  }

  lemma AnyDeleteRowWindow(cfg: Config, s: State, i: nat, ok: bool, c: string)
    requires IdsOk(s) && i in s.clients && ClientOk(cfg, s, i) && Alone(s, i) && RowsOk(cfg, s, s.clients[i].collection)
    requires c in cfg.collections && Window(cfg.collections[c], s, c) && DeleteRowStep(s, i, ok).Some?
    ensures Window(cfg.collections[c], DeleteRowStep(s, i, ok).value, c)
  {
    if c != s.clients[i].collection || s.clients[i].phase.Discarding? {
      DeleteRowElsewhere(cfg, s, i, ok, c);
      DeleteRowElsewhereWindow(cfg, s, i, ok, c);
    } else {
      CleanRowWindow(cfg, s, i, ok);
    }
  }

  lemma RowMoveWindow(cfg: Config, s: State, i: nat, move: Move, c: string)
    requires Sound(cfg) && LocksOk(s) && IdsOk(s) && i in s.clients && ClientOk(cfg, s, i)
             && RowsOk(cfg, s, s.clients[i].collection)
    requires c in cfg.collections && Window(cfg.collections[c], s, c) && (move.Register? || move.DeleteRow?)
    requires Moved(cfg, s, i, move).Some?
    ensures Window(cfg.collections[c], Moved(cfg, s, i, move).value, c)
  {
    assert Holds(s.clients[i].phase);
    HolderAlone(s, i);
    if move.Register? { AnyRegisterWindow(cfg, s, i, move.ok, c); } else { AnyDeleteRowWindow(cfg, s, i, move.ok, c); }
  }

  lemma MoveWindow(cfg: Config, s: State, i: nat, move: Move, c: string)
    requires Sound(cfg) && LocksOk(s) && IdsOk(s) && i in s.clients && ClientOk(cfg, s, i)
             && RowsOk(cfg, s, s.clients[i].collection)
    requires c in cfg.collections && Window(cfg.collections[c], s, c) && Moved(cfg, s, i, move).Some?
    ensures Window(cfg.collections[c], Moved(cfg, s, i, move).value, c)
  {
    if move.Register? || move.DeleteRow? {
      RowMoveWindow(cfg, s, i, move, c);
    } else if move.InsertLock? {
      InsertLockWindow(cfg, s, i, move.at, move.ok, c);
    } else if move.DeleteBlob? {
      DeleteBlobWindow(cfg, s, i, move.ok, c);
    } else {
      PlainMoveWindow(cfg, s, i, move, c);
    }
  }

  lemma EnvironmentWindow(cfg: Config, s: State, a: Action, c: string)
    requires Configured(cfg) && c in cfg.collections && Window(cfg.collections[c], s, c) && !a.Act?
             && Step(cfg, s, a).Some?
    ensures Window(cfg.collections[c], Step(cfg, s, a).value, c)
  {
    var spec, s' := cfg.collections[c], Step(cfg, s, a).value;
    assert forall i :: i in s.clients ==> i in s'.clients && s'.clients[i] == s.clients[i];
    if Safe(spec, c in s.lost) {
      forall i | i in s'.clients
        ensures HolderLast(spec, s', c, i)
      {
        if i in s.clients { HolderFrame(spec, s, s', c, i); }
      }
      assert Quiet(s', c) ==> Quiet(s, c);
    }
  }

  lemma StepWindows(cfg: Config, s: State, a: Action, s': State)
    requires Sound(cfg) && Inv(cfg, s) && Windows(cfg, s) && Next(cfg, s, a, s')
    ensures Windows(cfg, s')
  {
    if a.Act? { assert ClientOk(cfg, s, a.client) && CollectionOk(cfg, s, s.clients[a.client].collection); }
    forall c | c in cfg.collections
      ensures Window(cfg.collections[c], s', c)
    {
      if a.Act? { MoveWindow(cfg, s, a.client, a.move, c); } else { EnvironmentWindow(cfg, s, a, c); }
    }
  }

  /** Every collection has its window in every reachable state. */
  lemma ReachableWindows(cfg: Config, s: State)
    requires Sound(cfg) && Reachable(cfg, s)
    ensures Windows(cfg, s)
  {
    InitOk(cfg);
    forall u, a, v | Inv(cfg, u) && Timely(u) && Windows(cfg, u) && Next(cfg, u, a, v)
      ensures Inv(cfg, v) && Windows(cfg, v)
    {
      StepKeeps(cfg, u, a, v);
      StepWindows(cfg, u, a, v);
    }
    RunInduction(cfg, Init(), s, u => Inv(cfg, u) && Timely(u) && Windows(cfg, u));
  }

}

/** The handler body and the lock service, run undisturbed, are runs of the state machine. */
module UploadRefinement {
  import opened Options
  import opened Versions
  import opened Quota
  import opened UploadProtocol
  import opened Handler
  import Rotation
  import Stream
  import LocksService

  // ---------------------------------------------------------------- putting runs together

  lemma StartsHere(cfg: Config, s: State)
    requires Configured(cfg)
    ensures ReachableFrom(cfg, s, s)
  {
    assert Leads(cfg, s, Trace([s], []), s);
  }

  lemma Extends(cfg: Config, s: State, u: State, a: Action, v: State)
    requires Configured(cfg) && ReachableFrom(cfg, s, u) && Next(cfg, u, a, v)
    ensures ReachableFrom(cfg, s, v)
  {
    var t :| Leads(cfg, s, t, u);
    var longer := Trace(t.states + [v], t.actions + [a]);
    forall k | 0 <= k < |longer.actions|
      ensures Next(cfg, longer.states[k], longer.actions[k], longer.states[k + 1])
    {
      if k < |t.actions| { assert t.actions[k] == longer.actions[k]; }
    }
    assert Leads(cfg, s, longer, v);
  }

  /** A move of one request extends a run. */
  lemma Acts(cfg: Config, s: State, u: State, i: nat, move: Move, v: State)
    requires Configured(cfg) && ReachableFrom(cfg, s, u) && i in u.clients && u.clients[i].collection in cfg.collections
    requires Moved(cfg, u, i, move) == Some(v) && Timely(v)
    ensures ReachableFrom(cfg, s, v)
  {
    Extends(cfg, s, u, Act(i, move), v);
  }

  lemma Composes(cfg: Config, s: State, u: State, v: State)
    requires Configured(cfg) && ReachableFrom(cfg, s, u) && ReachableFrom(cfg, u, v)
    ensures ReachableFrom(cfg, s, v)
  {
    var t :| Leads(cfg, u, t, v);
    ComposesUpTo(cfg, s, u, t, v, |t.actions|);
  }

  lemma {:induction false} ComposesUpTo(cfg: Config, s: State, u: State, t: Trace, v: State, k: nat)
    requires Configured(cfg) && ReachableFrom(cfg, s, u) && Leads(cfg, u, t, v) && k <= |t.actions|
    ensures ReachableFrom(cfg, s, t.states[k])
  {
    if k > 0 {
      ComposesUpTo(cfg, s, u, t, v, k - 1);
      assert Next(cfg, t.states[k - 1], t.actions[k - 1], t.states[k]);
      Extends(cfg, s, t.states[k - 1], t.actions[k - 1], t.states[k]);
    }
  }

  function Content(s: State): Store {
    Store(s.table, s.blobs)
  }

  /** From `s` to `u` only request `i` of collection `c` has moved, keeping its lock; it is now in phase `ph`. */
  ghost predicate Later(cfg: Config, s: State, u: State, i: nat, c: string, ph: Phase)
    requires Configured(cfg)
  {
    && ReachableFrom(cfg, s, u) && Timely(u)
    && u.now == s.now && u.locks == s.locks
    && i in s.clients && u.clients == s.clients[i := s.clients[i].(phase := ph)]
    && c in cfg.collections && s.clients[i].collection == c && Holds(ph)
  }

  /** A holder that stays a holder stays punctual. */
  lemma StaysTimely(u: State, v: State, i: nat, ph: Phase)
    requires Timely(u) && i in u.clients && Holds(u.clients[i].phase) && v.now == u.now
             && v.clients == u.clients[i := u.clients[i].(phase := ph)]
    ensures Timely(v)
  {
  }

  lemma Moves(cfg: Config, s: State, u: State, i: nat, c: string, ph: Phase, move: Move, ph': Phase) returns (v: State)
    requires Configured(cfg) && Later(cfg, s, u, i, c, ph) && Holds(ph')
    requires Moved(cfg, u, i, move).Some?
             && Moved(cfg, u, i, move).value.clients == u.clients[i := u.clients[i].(phase := ph')]
    requires Moved(cfg, u, i, move).value.now == u.now && Moved(cfg, u, i, move).value.locks == u.locks
    ensures Later(cfg, s, v, i, c, ph') && Moved(cfg, u, i, move) == Some(v)
  {
    v := Moved(cfg, u, i, move).value;
    StaysTimely(u, v, i, ph');
    Acts(cfg, s, u, i, move, v);
  }

  // ---------------------------------------------------------------- the handler body, phase by phase

  /** Nothing but the phase has changed. */
  ghost predicate SameData(u: State, v: State) {
    Content(v) == Content(u) && v.registrations == u.registrations && v.stuck == u.stuck && v.leaked == u.leaked
  }

  lemma TakesNumber(cfg: Config, s: State, i: nat, c: string, id: Uuid) returns (v: State)
    requires Configured(cfg) && Later(cfg, s, s, i, c, Locked) && id !in s.usedIds
    ensures Later(cfg, s, v, i, c, Numbered(NewVersion(cfg.collections[c], Rows(s.table, c), c, id))) && SameData(s, v)
  {
    v := Moves(cfg, s, s, i, c, Locked, TakeNumber(id),
      Numbered(NewVersion(cfg.collections[c], Rows(s.table, c), c, id)));
  }

  lemma Plans(cfg: Config, s: State, u: State, i: nat, c: string, version: UploadedVersion,
      listed: seq<UploadedVersion>) returns (v: State)
    requires Configured(cfg) && Later(cfg, s, u, i, c, Numbered(version))
             && multiset(listed) == multiset(Rows(u.table, c))
    ensures Later(cfg, s, v, i, c, Planned(version, Rotation.Doomed(listed, cfg.collections[c].maxBackups)))
            && SameData(u, v)
  {
    v := Moves(cfg, s, u, i, c, Numbered(version), Plan(listed),
      Planned(version, Rotation.Doomed(listed, cfg.collections[c].maxBackups)));
  }

  lemma SetsQuota(cfg: Config, s: State, u: State, i: nat, c: string, version: UploadedVersion,
      doomed: seq<UploadedVersion>, listed: seq<UploadedVersion>)
    returns (v: State)
    requires Configured(cfg) && Later(cfg, s, u, i, c, Planned(version, doomed))
             && multiset(listed) == multiset(Rows(u.table, c))
    ensures Later(cfg, s, v, i, c, QuotaPhase(cfg.collections[c], version, doomed, listed)) && SameData(u, v)
  {
    v := Moves(cfg, s, u, i, c, Planned(version, doomed), SetQuota(listed),
      QuotaPhase(cfg.collections[c], version, doomed, listed));
  }

  /** Lines 59-107. */
  lemma Prepares(cfg: Config, s: State, i: nat, c: string, x: Inputs) returns (v: State)
    requires Configured(cfg) && Later(cfg, s, s, i, c, Locked) && x.id !in s.usedIds
             && Applicable(cfg.collections[c], Content(s), c, x)
    ensures var spec := cfg.collections[c];
            Later(cfg, s, v, i, c,
              QuotaPhase(spec, NewVersion(spec, Rows(s.table, c), c, x.id), Rotation.Doomed(x.listed, spec.maxBackups),
              x.relisted))
    ensures SameData(s, v)
  {
    var spec := cfg.collections[c];
    var a := TakesNumber(cfg, s, i, c, x.id);
    var b := Plans(cfg, s, a, i, c, NewVersion(spec, Rows(s.table, c), c, x.id), x.listed);
    v := SetsQuota(cfg, s, b, i, c, NewVersion(spec, Rows(s.table, c), c, x.id),
      Rotation.Doomed(x.listed, spec.maxBackups), x.relisted);
  }

  /** The first half of `Delete`, of the new version and of an old one. */
  lemma DiscardsRow(cfg: Config, s: State, u: State, i: nat, c: string, version: UploadedVersion,
      doomed: seq<UploadedVersion>, fails: bool) returns (v: State)
    requires Configured(cfg) && Later(cfg, s, u, i, c, Discarding(version, doomed, false))
    ensures Later(cfg, s, v, i, c, Discarding(version, doomed, true))
    ensures v.table == (if fails then u.table else Without(u.table, version.id)) && v.blobs == u.blobs
    ensures v.registrations == u.registrations && v.stuck == u.stuck
    ensures v.leaked == u.leaked
  {
    v := Moves(cfg, s, u, i, c, Discarding(version, doomed, false), DeleteRow(!fails),
      Discarding(version, doomed, true));
  }

  lemma DeletesRow(cfg: Config, s: State, u: State, i: nat, c: string, head: UploadedVersion,
      rest: seq<UploadedVersion>, fails: bool) returns (v: State)
    requires Configured(cfg) && Later(cfg, s, u, i, c, Cleaning(head, rest, false))
    ensures Later(cfg, s, v, i, c, Cleaning(head, rest, true))
    ensures v.table == (if fails then u.table else Without(u.table, head.id)) && v.blobs == u.blobs
    ensures v.registrations == u.registrations && v.stuck == u.stuck + if fails then {head.id} else {}
    ensures v.leaked == u.leaked
  {
    v := Moves(cfg, s, u, i, c, Cleaning(head, rest, false), DeleteRow(!fails), Cleaning(head, rest, true));
  }

  /** The second half. */
  lemma DiscardsBlob(cfg: Config, s: State, u: State, i: nat, c: string, version: UploadedVersion,
      doomed: seq<UploadedVersion>, fails: bool) returns (v: State)
    requires Configured(cfg) && Later(cfg, s, u, i, c, Discarding(version, doomed, true))
    ensures Later(cfg, s, v, i, c, CleaningOf(doomed))
    ensures v.table == u.table && v.blobs == (if fails then u.blobs else u.blobs - {Path(version)})
    ensures v.registrations == u.registrations && v.stuck == u.stuck
    ensures v.leaked <= u.leaked + if fails then {Path(version)} else {}
  {
    v := Moves(cfg, s, u, i, c, Discarding(version, doomed, true), DeleteBlob(!fails), CleaningOf(doomed));
  }

  lemma DeletesBlob(cfg: Config, s: State, u: State, i: nat, c: string, head: UploadedVersion,
      rest: seq<UploadedVersion>, fails: bool) returns (v: State)
    requires Configured(cfg) && Later(cfg, s, u, i, c, Cleaning(head, rest, true))
    ensures Later(cfg, s, v, i, c, CleaningOf(rest))
    ensures v.table == u.table && v.blobs == (if fails then u.blobs else u.blobs - {Path(head)})
    ensures v.registrations == u.registrations && v.stuck == u.stuck
    ensures v.leaked <= u.leaked + if fails then {Path(head)} else {}
  {
    v := Moves(cfg, s, u, i, c, Cleaning(head, rest, true), DeleteBlob(!fails), CleaningOf(rest));
  }

  lemma Discards(cfg: Config, s: State, u: State, i: nat, c: string, version: UploadedVersion,
      doomed: seq<UploadedVersion>, f: Faults) returns (v: State)
    requires Configured(cfg) && Later(cfg, s, u, i, c, Discarding(version, doomed, false))
    ensures Later(cfg, s, v, i, c, CleaningOf(doomed)) && Content(v) == Deleted(Content(u), version, f)
    ensures v.registrations == u.registrations && v.stuck == u.stuck
    ensures v.leaked <= u.leaked + if f.blobFails then {Path(version)} else {}
  {
    var a := DiscardsRow(cfg, s, u, i, c, version, doomed, f.rowFails);
    v := DiscardsBlob(cfg, s, a, i, c, version, doomed, f.blobFails);
  }

  lemma DeletesHead(cfg: Config, s: State, u: State, i: nat, c: string, head: UploadedVersion,
      rest: seq<UploadedVersion>, f: Faults) returns (v: State)
    requires Configured(cfg) && Later(cfg, s, u, i, c, Cleaning(head, rest, false))
    ensures Later(cfg, s, v, i, c, CleaningOf(rest)) && Content(v) == Deleted(Content(u), head, f)
    ensures v.registrations == u.registrations && v.stuck == u.stuck + if f.rowFails then {head.id} else {}
    ensures v.leaked <= u.leaked + if f.blobFails then {Path(head)} else {}
  {
    var a := DeletesRow(cfg, s, u, i, c, head, rest, f.rowFails);
    v := DeletesBlob(cfg, s, a, i, c, head, rest, f.blobFails);
  }

  /** `CleanUpOlderVersions`. */
  lemma CleansUp(cfg: Config, s: State, u: State, i: nat, c: string, doomed: seq<UploadedVersion>, faults: seq<Faults>)
      returns (v: State)
    requires Configured(cfg) && Later(cfg, s, u, i, c, CleaningOf(doomed)) && |faults| == |doomed|
    ensures Later(cfg, s, v, i, c, Releasing) && Content(v) == Cleaned(Content(u), doomed, faults)
    ensures v.registrations == u.registrations && v.stuck == u.stuck + StuckIds(doomed, faults)
    ensures v.leaked <= u.leaked + FailedPaths(doomed, faults)
    decreases |doomed|
  {
    if doomed == [] {
      v := u;
    } else {
      var a := DeletesHead(cfg, s, u, i, c, doomed[0], doomed[1..], faults[0]);
      v := CleansUp(cfg, s, a, i, c, doomed[1..], faults[1..]);
    }
  }

  /** A copy that fails, or whose size cannot be read: lines 110-115. */
  lemma Fails(cfg: Config, s: State, u: State, i: nat, c: string, ph: Phase, content: seq<Byte>, panics: bool,
      f: Faults) returns (v: State)
    requires Configured(cfg) && Later(cfg, s, u, i, c, ph) && ph.Copying?
    ensures Later(cfg, s, v, i, c, Releasing) && v.registrations == u.registrations && v.stuck == u.stuck
    ensures var written := Store(u.table, u.blobs[Path(ph.version) := content]);
            Content(v) == if panics then written else Deleted(written, ph.version, f)
    ensures v.leaked <= u.leaked + if panics || f.blobFails then {Path(ph.version)} else {}
  {
    var a := Moves(cfg, s, u, i, c, ph, WriteSome(content), ph);
    if panics {
      v := Moves(cfg, s, a, i, c, ph, Panic, Releasing);
    } else {
      var b := Moves(cfg, s, a, i, c, ph, Discard, Discarding(ph.version, [], false));
      v := Discards(cfg, s, b, i, c, ph.version, [], f);
    }
  }

  lemma Copies(cfg: Config, s: State, u: State, i: nat, c: string, ph: Phase, turns: seq<Stream.Turn>)
      returns (v: State)
    requires Configured(cfg) && Later(cfg, s, u, i, c, ph) && ph.Copying?
    requires Stream.Copy(Stream.StandardChain(ph.limit), turns, BUFFER_LEN).0.Copied?
    ensures var (outcome, content) := Stream.Copy(Stream.StandardChain(ph.limit), turns, BUFFER_LEN);
            && Later(cfg, s, v, i, c, Stored(ph.version.(filesize := outcome.total), ph.doomed))
            && Content(v) == Store(u.table, u.blobs[Path(ph.version) := content])
    ensures v.registrations == u.registrations && v.stuck == u.stuck
    ensures v.leaked <= u.leaked
  {
    var total := Stream.Copy(Stream.StandardChain(ph.limit), turns, BUFFER_LEN).0.total;
    v := Moves(cfg, s, u, i, c, ph, FinishCopy(turns), Stored(ph.version.(filesize := total), ph.doomed));
  }

  lemma FinishesLost(cfg: Config, s: State, u: State, i: nat, c: string, version: UploadedVersion,
      doomed: seq<UploadedVersion>, x: Inputs) returns (v: State)
    requires Configured(cfg) && Later(cfg, s, u, i, c, Stored(version, doomed)) && |x.faults| == |doomed|
    ensures Later(cfg, s, v, i, c, Releasing)
            && Content(v) == Cleaned(Deleted(Content(u), version, x.discard), doomed, x.faults)
    ensures v.registrations == u.registrations && v.stuck == u.stuck + StuckIds(doomed, x.faults)
    ensures v.leaked <= u.leaked + LeftBy(doomed, version, x)
  {
    var a := Moves(cfg, s, u, i, c, Stored(version, doomed), Register(false), Discarding(version, doomed, false));
    var b := Discards(cfg, s, a, i, c, version, doomed, x.discard);
    v := CleansUp(cfg, s, b, i, c, doomed, x.faults);
  }

  lemma FinishesRegistered(cfg: Config, s: State, u: State, i: nat, c: string, version: UploadedVersion,
      doomed: seq<UploadedVersion>, x: Inputs) returns (v: State)
    requires Configured(cfg) && Later(cfg, s, u, i, c, Stored(version, doomed)) && |x.faults| == |doomed|
    ensures Later(cfg, s, v, i, c, Releasing)
            && Content(v) == Cleaned(Store(u.table + [version], u.blobs), doomed, x.faults)
    ensures Registered(v, c) == Registered(u, c) + 1 && v.stuck == u.stuck + StuckIds(doomed, x.faults)
    ensures v.leaked <= u.leaked + LeftBy(doomed, version, x)
  {
    var a := Moves(cfg, s, u, i, c, Stored(version, doomed), Register(true), CleaningOf(doomed));
    v := CleansUp(cfg, s, a, i, c, doomed, x.faults);
  }

  /** Lines 118-135. */
  lemma Finishes(cfg: Config, s: State, u: State, i: nat, c: string, version: UploadedVersion,
      doomed: seq<UploadedVersion>, x: Inputs) returns (v: State)
    requires Configured(cfg) && Later(cfg, s, u, i, c, Stored(version, doomed)) && |x.faults| == |doomed|
             && !x.fate.Unread?
    ensures Later(cfg, s, v, i, c, Releasing) && Content(v) == AfterCopy(Content(u), version, doomed, x)
    ensures Registered(v, c) == Registered(u, c) + if x.fate.Registers? then 1 else 0
    ensures v.stuck <= u.stuck + StuckIds(doomed, x.faults)
    ensures v.leaked <= u.leaked + LeftBy(doomed, version, x)
  {
    match x.fate
    case Cancelled =>
      var a := Moves(cfg, s, u, i, c, Stored(version, doomed), Discard, Discarding(version, [], false));
      v := Discards(cfg, s, a, i, c, version, [], x.discard);
    case Unregistered => v := FinishesLost(cfg, s, u, i, c, version, doomed, x);
    case Registers => v := FinishesRegistered(cfg, s, u, i, c, version, doomed, x);
  }

  /** What the upload adds to the number of registrations. */
  function Gained(spec: Spec, x: Inputs): nat
    requires spec.maxBackups >= 1
  {
    if Received(spec, x) && x.fate.Registers? then 1 else 0
  }

  /** The paths at which the upload may leave a blob behind. */
  function Leftovers(spec: Spec, st: Store, c: string, x: Inputs): set<string>
    requires Applicable(spec, st, c, x)
  {
    LeftBy(Rotation.Doomed(x.listed, spec.maxBackups), NewVersion(spec, Rows(st.table, c), c, x.id), x)
  }

  lemma CopiesAndFinishes(cfg: Config, s: State, u: State, i: nat, c: string, ph: Phase, x: Inputs) returns (v: State)
    requires Configured(cfg) && Later(cfg, s, u, i, c, ph) && ph.Copying? && |x.faults| == |ph.doomed|
    ensures var (outcome, content) := Copied(ph.limit, x);
            var written := Store(u.table, u.blobs[Path(ph.version) := content]);
            && Later(cfg, s, v, i, c, Releasing)
            && Content(v) == (if !outcome.Copied? then Deleted(written, ph.version, x.discard)
                              else AfterCopy(written, ph.version.(filesize := outcome.total), ph.doomed, x))
            && Registered(v, c) == Registered(u, c) + (if outcome.Copied? && x.fate.Registers? then 1 else 0)
            && v.stuck <= u.stuck + StuckIds(ph.doomed, x.faults)
            && v.leaked <= u.leaked + LeftBy(ph.doomed, ph.version, x)
  {
    var (outcome, content) := Copied(ph.limit, x);
    if !outcome.Copied? || x.fate.Unread? {
      v := Fails(cfg, s, u, i, c, ph, content, outcome.Copied?, x.discard);
    } else {
      var a := Copies(cfg, s, u, i, c, ph, x.turns);
      v := Finishes(cfg, s, a, i, c, ph.version.(filesize := outcome.total), ph.doomed, x);
      assert Path(ph.version.(filesize := outcome.total)) == Path(ph.version);
    }
  }

  /**
   * Refinement: whatever the surroundings decide, the machine can take a request that has just got its lock through the
   * handler's steps to exactly the registry and store the handler body computes.
   */
  lemma HandlerRuns(cfg: Config, s: State, i: nat, c: string, x: Inputs) returns (v: State)
    requires Configured(cfg) && Later(cfg, s, s, i, c, Locked) && x.id !in s.usedIds
             && Applicable(cfg.collections[c], Content(s), c, x)
    ensures Later(cfg, s, v, i, c, Releasing) && Content(v) == Effect(cfg.collections[c], Content(s), c, x)
    ensures Registered(v, c) == Registered(s, c) + Gained(cfg.collections[c], x)
    ensures v.stuck <= s.stuck + StuckIds(Rotation.Doomed(x.listed, cfg.collections[c].maxBackups), x.faults)
    ensures v.leaked <= s.leaked + Leftovers(cfg.collections[c], Content(s), c, x)
  {
    var spec := cfg.collections[c];
    var version, doomed := NewVersion(spec, Rows(s.table, c), c, x.id), Rotation.Doomed(x.listed, spec.maxBackups);
    v := Prepares(cfg, s, i, c, x);
    if UploadLimit(spec, x).Allowed? {
      v := CopiesAndFinishes(cfg, s, v, i, c, Copying(version, doomed, UploadLimit(spec, x).bytes), x);
    }
  }

  // ---------------------------------------------------------------- the lock

  lemma Arrives(cfg: Config, s: State, c: string, i: nat) returns (v: State)
    requires Configured(cfg) && Timely(s) && c in cfg.collections && i !in s.clients
    ensures ReachableFrom(cfg, s, v) && Timely(v) && v == s.(clients := s.clients[i := Client(c, 0, Arrived)])
  {
    StartsHere(cfg, s);
    v := s.(clients := s.clients[i := Client(c, 0, Arrived)]);
    Extends(cfg, s, s, Arrive(i, c), v);
  }

  lemma Looks(cfg: Config, s: State, c: string, i: nat, queryFails: bool) returns (v: State)
    requires Configured(cfg) && Timely(s) && c in cfg.collections && i !in s.clients
    ensures ReachableFrom(cfg, s, v) && Timely(v)
    ensures var locked := !queryFails && LocksService.IsLocked(s.locks, LockId(c), s.now);
            v == s.(clients := s.clients[i := Client(c, 0, if locked then Finished else Checked)])
  {
    var a := Arrives(cfg, s, c, i);
    v := CheckLockStep(a, i, s.now, !queryFails).value;
    assert v.clients == s.clients[i := v.clients[i]];
    Acts(cfg, s, a, i, CheckLock(s.now, !queryFails), v);
  }

  lemma MayCleanUp(cfg: Config, s: State, u: State, cleansUp: bool) returns (v: State)
    requires Configured(cfg) && ReachableFrom(cfg, s, u) && Timely(u)
    ensures ReachableFrom(cfg, s, v) && Timely(v)
    ensures v == u.(locks := if cleansUp then LocksService.Unexpired(u.locks, u.now) else u.locks)
  {
    v := u.(locks := if cleansUp then LocksService.Unexpired(u.locks, u.now) else u.locks);
    if cleansUp { Extends(cfg, s, u, CleanUp(u.now), v); }
  }

  lemma InsertTimely(s: State, u: State, v: State, i: nat, c: string, insertFails: bool, lockTime: int)
    requires Timely(u) && lockTime >= 0 && u.clients == s.clients[i := Client(c, 0, Checked)]
    requires InsertLockStep(u, i, u.now, !insertFails, lockTime) == Some(v)
    ensures Timely(v)
    ensures if LockId(c) in u.locks || insertFails then v == u.(clients := s.clients[i := Client(c, 0, Finished)])
            else v == u.(locks := u.locks[LockId(c) := u.now + lockTime],
              clients := s.clients[i := Client(c, u.now + lockTime, Locked)])
  {
    assert v.clients == s.clients[i := v.clients[i]];
  }

  lemma InsertsLock(cfg: Config, s: State, u: State, i: nat, c: string, insertFails: bool) returns (v: State)
    requires Configured(cfg) && ReachableFrom(cfg, s, u) && Timely(u) && c in cfg.collections && cfg.lockTime >= 0
    requires u.clients == s.clients[i := Client(c, 0, Checked)]
    ensures ReachableFrom(cfg, s, v) && Timely(v)
    ensures if LockId(c) in u.locks || insertFails then v == u.(clients := s.clients[i := Client(c, 0, Finished)])
            else v == u.(locks := u.locks[LockId(c) := u.now + cfg.lockTime],
              clients := s.clients[i := Client(c, u.now + cfg.lockTime, Locked)])
  {
    v := InsertLockStep(u, i, u.now, !insertFails, cfg.lockTime).value;
    InsertTimely(s, u, v, i, c, insertFails, cfg.lockTime);
    Acts(cfg, s, u, i, InsertLock(u.now, !insertFails), v);
  }

  /**
   * `Lock` undisturbed is the check, the occasional clean-up and the insert of the machine: a request that arrives ends
   * up holding the lock exactly when the service grants it, with the same table.
   */
  lemma LockRuns(cfg: Config, s: State, c: string, i: nat, queryFails: bool, cleansUp: bool, insertFails: bool)
      returns (v: State)
    requires Configured(cfg) && Timely(s) && c in cfg.collections && cfg.lockTime >= 0 && i !in s.clients
    ensures ReachableFrom(cfg, s, v) && Timely(v)
    ensures var (locks, granted) := LocksService.LockEffect(s.locks, LockId(c), s.now, cfg.lockTime, queryFails,
            cleansUp, insertFails);
            v == s.(locks := locks,
                    clients := s.clients[i := if granted then Client(c, s.now + cfg.lockTime, Locked)
                      else Client(c, 0, Finished)])
  {
    var a := Looks(cfg, s, c, i, queryFails);
    v := MayCleanUp(cfg, s, a, cleansUp);
    if a.clients[i].phase.Checked? { v := InsertsLock(cfg, s, v, i, c, insertFails); }
  }

  /** The lock has no row, or an expired one. */
  predicate LockFree(s: State, c: string) {
    LockId(c) in s.locks ==> s.locks[LockId(c)] < s.now
  }

  /** A free lock is granted, after a clean-up if an expired row is in the way. */
  lemma Acquires(cfg: Config, s: State, c: string, i: nat) returns (v: State)
    requires Configured(cfg) && Timely(s) && c in cfg.collections && cfg.lockTime >= 0 && i !in s.clients
    requires LockFree(s, c)
    ensures ReachableFrom(cfg, s, v) && Timely(v)
    ensures SameData(s, v) && v.now == s.now && v.usedIds == s.usedIds
    ensures v.clients == s.clients[i := Client(c, s.now + cfg.lockTime, Locked)]
  {
    v := LockRuns(cfg, s, c, i, false, LockId(c) in s.locks, false);
  }

  /** A holder's run starts where it has just got its lock. */
  lemma StartsLocked(cfg: Config, s: State, c: string, i: nat)
    requires Configured(cfg) && Timely(s) && c in cfg.collections
    requires i in s.clients && s.clients[i].collection == c && s.clients[i].phase.Locked?
    ensures Later(cfg, s, s, i, c, Locked)
  {
    StartsHere(cfg, s);
    assert s.clients == s.clients[i := s.clients[i].(phase := Locked)];
  }

  lemma Unlocks(cfg: Config, s: State, u: State, i: nat, c: string) returns (v: State)
    requires Configured(cfg) && Later(cfg, s, u, i, c, Releasing)
    ensures ReachableFrom(cfg, s, v) && Timely(v) && v.clients == s.clients[i := s.clients[i].(phase := Finished)]
    ensures SameData(u, v) && v.locks == s.locks - {LockId(c)} && v.now == u.now
  {
    v := UnlockStep(u, i, true).value;
    Acts(cfg, s, u, i, Unlock(true), v);
  }

  lemma LockedUploadRuns(cfg: Config, s: State, c: string, i: nat, x: Inputs) returns (v: State)
    requires Configured(cfg) && Timely(s) && c in cfg.collections
    requires i in s.clients && s.clients[i].collection == c && s.clients[i].phase.Locked?
    requires x.id !in s.usedIds && Applicable(cfg.collections[c], Content(s), c, x)
    ensures ReachableFrom(cfg, s, v) && Timely(v) && v.now == s.now && v.locks == s.locks - {LockId(c)}
    ensures v.clients == s.clients[i := s.clients[i].(phase := Finished)]
            && Computed(cfg.collections[c], Content(s), Registered(s, c), s.stuck, s.leaked, v, c, x)
  {
    StartsLocked(cfg, s, c, i);
    var u := HandlerRuns(cfg, s, i, c, x);
    v := Unlocks(cfg, s, u, i, c);
  }

  /** Only request `i` has come and gone, and the lock is free. */
  ghost predicate CameAndWent(cfg: Config, s: State, v: State, c: string, i: nat)
    requires Configured(cfg)
  {
    && ReachableFrom(cfg, s, v) && Timely(v) && v.now == s.now && LockId(c) !in v.locks
    && v.clients.Keys == s.clients.Keys + {i} && (forall j :: j in s.clients && j != i ==> v.clients[j] == s.clients[j])
    && i in v.clients && v.clients[i].phase.Finished?
  }

  /**
   * Registry and store are what the handler body computes from `st`, where `k` registrations, stuck rows and leaked
   * blobs have gone before.
   */
  ghost predicate Computed(spec: Spec, st: Store, k: nat, stuck: set<Uuid>, leaked: set<string>, v: State, c: string,
      x: Inputs)
    requires Applicable(spec, st, c, x)
  {
    && Content(v) == Effect(spec, st, c, x)
    && Registered(v, c) == k + Gained(spec, x)
    && v.stuck <= stuck + StuckIds(Rotation.Doomed(x.listed, spec.maxBackups), x.faults)
    && v.leaked <= leaked + Leftovers(spec, st, c, x)
  }

  // ---------------------------------------------------------------- no holder is stuck

  /** The lock is as it was, and the request still holds its collection. */
  ghost predicate KeepsHolding(s: State, s': State, i: nat) {
    i in s'.clients && Holds(s'.clients[i].phase) && s'.locks == s.locks
  }

  lemma DeletingRowKeepsHolding(s: State, i: nat, ok: bool)
    requires i in s.clients && DeleteRowStep(s, i, ok).Some?
    ensures KeepsHolding(s, DeleteRowStep(s, i, ok).value, i)
  {
  }

  lemma DeletingBlobKeepsHolding(s: State, i: nat, ok: bool)
    requires i in s.clients && DeleteBlobStep(s, i, ok).Some?
    ensures KeepsHolding(s, DeleteBlobStep(s, i, ok).value, i)
  {
  }

  lemma PreparingKeepsHolding(cfg: Config, s: State, i: nat, move: Move)
    requires i in s.clients && s.clients[i].collection in cfg.collections && Holds(s.clients[i].phase)
    requires cfg.collections[s.clients[i].collection].maxBackups >= 1 && Moved(cfg, s, i, move).Some?
    requires move.CheckLock? || move.InsertLock? || move.TakeNumber? || move.Plan? || move.SetQuota? || move.GiveUp?
    ensures KeepsHolding(s, Moved(cfg, s, i, move).value, i)
  {
  }

  lemma UploadingKeepsHolding(cfg: Config, s: State, i: nat, move: Move)
    requires i in s.clients && s.clients[i].collection in cfg.collections && Holds(s.clients[i].phase)
    requires cfg.collections[s.clients[i].collection].maxBackups >= 1 && Moved(cfg, s, i, move).Some?
    requires move.WriteSome? || move.FinishCopy? || move.Panic? || move.Discard? || move.Register?
    ensures KeepsHolding(s, Moved(cfg, s, i, move).value, i)
  {
  }

  /** A request that holds its collection gives it up by unlocking, and in no other way. */
  lemma OnlyUnlockReleases(cfg: Config, s: State, i: nat, move: Move)
    requires i in s.clients && s.clients[i].collection in cfg.collections && Holds(s.clients[i].phase)
    requires cfg.collections[s.clients[i].collection].maxBackups >= 1 && Moved(cfg, s, i, move).Some?
    ensures var s' := Moved(cfg, s, i, move).value;
            && i in s'.clients
            && (Holds(s'.clients[i].phase) <==> !move.Unlock?)
            && (Holds(s'.clients[i].phase) ==> s'.locks == s.locks)
            && (move.Unlock? && move.ok ==> s'.locks == s.locks - {LockId(s.clients[i].collection)})
  {
    if move.DeleteRow? {
      DeletingRowKeepsHolding(s, i, move.ok);
    } else if move.DeleteBlob? {
      DeletingBlobKeepsHolding(s, i, move.ok);
    } else if move.WriteSome? || move.FinishCopy? || move.Panic? || move.Discard? || move.Register? {
      UploadingKeepsHolding(cfg, s, i, move);
    } else if !move.Unlock? {
      PreparingKeepsHolding(cfg, s, i, move);
    }
  }

  lemma StartsHolding(cfg: Config, s: State, i: nat)
    requires Configured(cfg) && Timely(s) && i in s.clients && s.clients[i].collection in cfg.collections
    requires Holds(s.clients[i].phase)
    ensures Later(cfg, s, s, i, s.clients[i].collection, s.clients[i].phase)
  {
    StartsHere(cfg, s);
    assert s.clients == s.clients[i := s.clients[i].(phase := s.clients[i].phase)];
  }

  /** Whatever a request is in the middle of, it can come to the point where it releases its lock. */
  lemma ReachesRelease(cfg: Config, s: State, i: nat, c: string) returns (v: State)
    requires Configured(cfg) && i in s.clients && Later(cfg, s, s, i, c, s.clients[i].phase)
    ensures Later(cfg, s, v, i, c, Releasing)
  {
    var ph := s.clients[i].phase;
    v := s;
    match ph
    case Locked => v := Moves(cfg, s, s, i, c, ph, GiveUp, Releasing);
    case Numbered(_) => v := Moves(cfg, s, s, i, c, ph, GiveUp, Releasing);
    case Planned(_, _) => v := Moves(cfg, s, s, i, c, ph, GiveUp, Releasing);
    case Copying(version, _, _) =>
      v := Moves(cfg, s, s, i, c, ph, Discard, Discarding(version, [], false));
      v := Discards(cfg, s, v, i, c, version, [], Faults(false, false));
    case Stored(_, doomed) =>
      v := Moves(cfg, s, s, i, c, ph, Register(true), CleaningOf(doomed));
      v := CleansUp(cfg, s, v, i, c, doomed, NoFaults(|doomed|));
    case Discarding(_, _, _) => v := DiscardingReaches(cfg, s, i, c);
    case Cleaning(_, _, _) => v := CleaningReaches(cfg, s, i, c);
    case Releasing =>
  }

  lemma DiscardingReaches(cfg: Config, s: State, i: nat, c: string) returns (v: State)
    requires Configured(cfg) && i in s.clients && Later(cfg, s, s, i, c, s.clients[i].phase)
             && s.clients[i].phase.Discarding?
    ensures Later(cfg, s, v, i, c, Releasing)
  {
    var ph := s.clients[i].phase;
    v := s;
    if !ph.rowGone { v := DiscardsRow(cfg, s, v, i, c, ph.version, ph.doomed, false); }
    v := DiscardsBlob(cfg, s, v, i, c, ph.version, ph.doomed, false);
    v := CleansUp(cfg, s, v, i, c, ph.doomed, NoFaults(|ph.doomed|));
  }

  lemma CleaningReaches(cfg: Config, s: State, i: nat, c: string) returns (v: State)
    requires Configured(cfg) && i in s.clients && Later(cfg, s, s, i, c, s.clients[i].phase)
             && s.clients[i].phase.Cleaning?
    ensures Later(cfg, s, v, i, c, Releasing)
  {
    var ph := s.clients[i].phase;
    v := s;
    if !ph.rowGone { v := DeletesRow(cfg, s, v, i, c, ph.head, ph.rest, false); }
    v := DeletesBlob(cfg, s, v, i, c, ph.head, ph.rest, false);
    v := CleansUp(cfg, s, v, i, c, ph.rest, NoFaults(|ph.rest|));
  }

  /**
   * No request gets stuck with a collection: from every state in which holders are within their locks, each of them can
   * finish and free its lock without any other request moving.
   */
  lemma HolderCanFinish(cfg: Config, s: State, i: nat) returns (v: State)
    requires Configured(cfg) && Timely(s) && i in s.clients && s.clients[i].collection in cfg.collections
    requires Holds(s.clients[i].phase)
    ensures ReachableFrom(cfg, s, v) && v.locks == s.locks - {LockId(s.clients[i].collection)}
    ensures v.clients == s.clients[i := s.clients[i].(phase := Finished)]
  {
    StartsHolding(cfg, s, i);
    var u := ReachesRelease(cfg, s, i, s.clients[i].collection);
    v := Unlocks(cfg, s, u, i, s.clients[i].collection);
  }

  /** A whole request on a free lock, from its arrival to the release. */
  lemma UploadRuns(cfg: Config, s: State, c: string, i: nat, x: Inputs) returns (v: State)
    requires Configured(cfg) && Timely(s) && c in cfg.collections && cfg.lockTime >= 0 && i !in s.clients
             && LockFree(s, c)
    requires x.id !in s.usedIds && Applicable(cfg.collections[c], Content(s), c, x)
    ensures CameAndWent(cfg, s, v, c, i)
            && Computed(cfg.collections[c], Content(s), Registered(s, c), s.stuck, s.leaked, v, c, x)
  {
    var locked := Acquires(cfg, s, c, i);
    assert Content(locked) == Content(s) && Registered(locked, c) == Registered(s, c);
    v := LockedUploadRuns(cfg, locked, c, i, x);
    Composes(cfg, s, locked, v);
  }
}

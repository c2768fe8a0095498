/**
 * The upload handler (pkg/http/collection.go:51-135) as a state machine over one lock table, one registry and one
 * blob store, shared by any number of requests to any number of collections. Every database statement and every
 * storage call is a step of its own, so requests interleave between any two of them.
 */
module UploadProtocol {
  import opened Versions
  import opened Quota
  import opened Int64
  import opened Options
  import Naming
  import Rotation
  import Stream
  import LocksService

  const BUFFER_LEN: nat := 1024 * 1024

  /** The configured collections and the request timeout that locks are taken for. */
  datatype Config = Config(collections: map<string, Spec>, lockTime: int)

  /** Where a request is; `doomed` are the versions its rotation plan deletes. */
  datatype Phase =
    | Arrived
    | Checked
    | Locked
    | Numbered(version: UploadedVersion)
    | Planned(version: UploadedVersion, doomed: seq<UploadedVersion>)
    | Copying(version: UploadedVersion, doomed: seq<UploadedVersion>, limit: int)
    | Stored(version: UploadedVersion, doomed: seq<UploadedVersion>)
    | Discarding(version: UploadedVersion, doomed: seq<UploadedVersion>, rowGone: bool)
    | Cleaning(head: UploadedVersion, rest: seq<UploadedVersion>, rowGone: bool)
    | Releasing
    | Finished

  datatype Client = Client(collection: string, expires: int, phase: Phase)

  datatype State = State(
    now: int,
    locks: map<string, int>,
    table: seq<UploadedVersion>,
    blobs: map<string, seq<Byte>>,
    usedIds: set<Uuid>,
    clients: map<nat, Client>,
    // history, read by no step: the content each upload was accepted with, the number of registrations of
    // each collection, the collections that lost one, the versions whose row a clean-up failed to delete, and the
    // paths whose blob could not be deleted or was left by an upload that panicked
    accepted: map<Uuid, seq<Byte>>,
    registrations: map<string, nat>,
    lost: set<string>,
    stuck: set<Uuid>,
    leaked: set<string>)

  function Init(): State {
    State(0, map[], [], map[], {}, map[], map[], map[], {}, {}, {})
  }

  /** `GetGlobalIdentifier`. */
  function LockId(collection: string): string {
    "collection:" + collection
  }

  function Path(v: UploadedVersion): string {
    Naming.TargetPath(v.collectionId, v.filename)
  }

  function Registered(s: State, c: string): nat {
    if c in s.registrations then s.registrations[c] else 0
  }

  /** The request has taken the lock and not yet given it back. */
  predicate Holds(ph: Phase) {
    !ph.Arrived? && !ph.Checked? && !ph.Finished?
  }

  datatype Move =
    | CheckLock(at: int, answered: bool)
    | InsertLock(at: int, ok: bool)
    | TakeNumber(id: Uuid)
    | Plan(listed: seq<UploadedVersion>)
    | SetQuota(listed: seq<UploadedVersion>)
    | GiveUp
    | WriteSome(content: seq<Byte>)
    | FinishCopy(turns: seq<Stream.Turn>)
    | Panic
    | Discard
    | Register(ok: bool)
    | DeleteRow(ok: bool)
    | DeleteBlob(ok: bool)
    | Unlock(ok: bool)

  datatype Action =
    | Tick(to: int)
    | Arrive(client: nat, collection: string)
    | CleanUp(at: int)
    | Act(client: nat, move: Move)

  function To(s: State, i: nat, phase: Phase): State
    requires i in s.clients
  {
    s.(clients := s.clients[i := s.clients[i].(phase := phase)])
  }

  function CleaningOf(doomed: seq<UploadedVersion>): Phase {
    if doomed == [] then Releasing else Cleaning(doomed[0], doomed[1..], false)
  }

  /** The version `CreateNewVersionFromCollection` makes. */
  function NewVersion(spec: Spec, rows: seq<UploadedVersion>, c: string, id: Uuid): UploadedVersion {
    var number := HighestNumber(rows) + 1;
    UploadedVersion(id, c, number, Naming.Filename(spec.template, number), 0)
  }

  // The steps of the handler. Each is None where the client's phase does not allow it.

  /** `isLockedAlready`: a failed query leaves its count at 0, and the clock is read before the statement runs. */
  function CheckLockStep(s: State, i: nat, at: int, answered: bool): Option<State>
    requires i in s.clients
  {
    var id := LockId(s.clients[i].collection);
    if !s.clients[i].phase.Arrived? || at > s.now then None
    else Some(To(s, i, if answered && LocksService.IsLocked(s.locks, id, at) then Finished else Checked))
  }

  /** `addLock`: the id is the primary key of the table. */
  function InsertLockStep(s: State, i: nat, at: int, ok: bool, lockTime: int): Option<State>
    requires i in s.clients
  {
    var c := s.clients[i].collection;
    var expires := at + lockTime;
    if !s.clients[i].phase.Checked? || at > s.now then None
    else if LockId(c) in s.locks || !ok then Some(To(s, i, Finished))
    else Some(s.(locks := s.locks[LockId(c) := expires], clients := s.clients[i := Client(c, expires, Locked)]))
  }

  /** `CreateNewVersionFromCollection`. */
  function TakeNumberStep(spec: Spec, s: State, i: nat, id: Uuid): Option<State>
    requires i in s.clients
  {
    var c := s.clients[i].collection;
    if !s.clients[i].phase.Locked? || id in s.usedIds then None
    else Some(To(s, i, Numbered(NewVersion(spec, Rows(s.table, c), c, id))).(usedIds := s.usedIds + {id}))
  }

  /** `CreateRotationStrategyCase` and the plan; the database may list the rows in any order. */
  function PlanStep(spec: Spec, s: State, i: nat, listed: seq<UploadedVersion>): Option<State>
    requires i in s.clients && spec.maxBackups >= 1
  {
    var ph := s.clients[i].phase;
    if !ph.Numbered? || multiset(listed) != multiset(Rows(s.table, s.clients[i].collection)) then None
    else Some(To(s, i, Planned(ph.version, Rotation.Doomed(listed, spec.maxBackups))))
  }

  /** `CreateStandardMiddleWares`, which lists the rows once more. */
  function SetQuotaStep(spec: Spec, s: State, i: nat, listed: seq<UploadedVersion>): Option<State>
    requires i in s.clients
  {
    var ph := s.clients[i].phase;
    if !ph.Planned? || multiset(listed) != multiset(Rows(s.table, s.clients[i].collection)) then None
    else Some(To(s, i, QuotaPhase(spec, ph.version, ph.doomed, listed)))
  }

  function QuotaPhase(spec: Spec, v: UploadedVersion, doomed: seq<UploadedVersion>,
      listed: seq<UploadedVersion>): Phase {
    match MaximumUpload64(spec, Wrap(Sum(ExcessExcept(spec.maxOneVersion, Ids(doomed)), listed)))
    case Allowed(bytes) => Copying(v, doomed, bytes)
    case Corrupted => Releasing
  }

  /** A query fails, or the request body cannot be opened. */
  function GiveUpStep(s: State, i: nat): Option<State>
    requires i in s.clients
  {
    var ph := s.clients[i].phase;
    if ph.Locked? || ph.Numbered? || ph.Planned? then Some(To(s, i, Releasing)) else None
  }

  /** Until the copy is finished the store may hold anything at the new path. */
  function WriteSomeStep(s: State, i: nat, content: seq<Byte>): Option<State>
    requires i in s.clients
  {
    var ph := s.clients[i].phase;
    if !ph.Copying? then None
    else Some(s.(blobs := s.blobs[Path(ph.version) := content], leaked := s.leaked - {Path(ph.version)}))
  }

  /** `UploadFile` succeeds. */
  function FinishCopyStep(s: State, i: nat, turns: seq<Stream.Turn>): Option<State>
    requires i in s.clients
  {
    var ph := s.clients[i].phase;
    if !ph.Copying? then None
    else
      var (outcome, content) := Stream.Copy(Stream.StandardChain(ph.limit), turns, BUFFER_LEN);
      if !outcome.Copied? then None
      else Some(To(s, i, Stored(ph.version.(filesize := outcome.total), ph.doomed))
                .(blobs := s.blobs[Path(ph.version) := content], leaked := s.leaked - {Path(ph.version)},
                  accepted := s.accepted[ph.version.id := content]))
  }

  /** The leftovers once what the store holds at `path`, if anything, stays behind. */
  function LeakedWith(s: State, path: string): set<string> {
    if path in s.blobs then s.leaked + {path} else s.leaked
  }

  /**
   * The writer cannot be opened, or the attributes of what was written cannot be read: both results are used unchecked,
   * so the handler panics. The deferred unlock runs, and nothing is deleted.
   */
  function PanicStep(s: State, i: nat): Option<State>
    requires i in s.clients
  {
    var ph := s.clients[i].phase;
    if !ph.Copying? then None else Some(To(s, i, Releasing).(leaked := LeakedWith(s, Path(ph.version))))
  }

  /** `UploadFile` fails, or the client cancels after the body was written. */
  function DiscardStep(s: State, i: nat): Option<State>
    requires i in s.clients
  {
    var ph := s.clients[i].phase;
    if ph.Copying? || ph.Stored? then Some(To(s, i, Discarding(ph.version, [], false))) else None
  }

  /** `RegisterVersion`: a failure discards the blob and still goes on to the clean-up. */
  function RegisterStep(s: State, i: nat, ok: bool): Option<State>
    requires i in s.clients
  {
    var c, ph := s.clients[i].collection, s.clients[i].phase;
    if !ph.Stored? then None
    else if ok then Some(To(s, i, CleaningOf(ph.doomed))
                         .(table := s.table + [ph.version],
                           registrations := s.registrations[c := Registered(s, c) + 1]))
    else Some(To(s, i, Discarding(ph.version, ph.doomed, false)).(lost := s.lost + {c}))
  }

  /** The first half of `Delete`. */
  function DeleteRowStep(s: State, i: nat, ok: bool): Option<State>
    requires i in s.clients
  {
    var ph := s.clients[i].phase;
    if ph.Discarding? && !ph.rowGone then
      var s' := To(s, i, Discarding(ph.version, ph.doomed, true));
      Some(if ok then s'.(table := Without(s.table, ph.version.id)) else s')
    else if ph.Cleaning? && !ph.rowGone then
      var s' := To(s, i, Cleaning(ph.head, ph.rest, true));
      Some(if ok then s'.(table := Without(s.table, ph.head.id)) else s'.(stuck := s.stuck + {ph.head.id}))
    else None
  }

  function BlobDeleted(s: State, path: string, ok: bool): State {
    s.(blobs := if ok then s.blobs - {path} else s.blobs, leaked := if ok then s.leaked - {path}
      else LeakedWith(s, path))
  }

  /** The second half of `Delete`, which runs whatever became of the first. */
  function DeleteBlobStep(s: State, i: nat, ok: bool): Option<State>
    requires i in s.clients
  {
    var ph := s.clients[i].phase;
    if ph.Discarding? && ph.rowGone then
      Some(BlobDeleted(To(s, i, CleaningOf(ph.doomed)), Path(ph.version), ok))
    else if ph.Cleaning? && ph.rowGone then
      Some(BlobDeleted(To(s, i, CleaningOf(ph.rest)), Path(ph.head), ok))
    else None
  }

  /** `unlock` deletes the row by its id alone. */
  function UnlockStep(s: State, i: nat, ok: bool): Option<State>
    requires i in s.clients
  {
    if !s.clients[i].phase.Releasing? then None
    else Some(To(s, i, Finished).(locks := if ok then s.locks - {LockId(s.clients[i].collection)} else s.locks))
  }

  /** The effect of a move of client `i`, if its phase allows the move. */
  function Moved(cfg: Config, s: State, i: nat, move: Move): Option<State>
    requires i in s.clients && s.clients[i].collection in cfg.collections
    requires cfg.collections[s.clients[i].collection].maxBackups >= 1
  {
    var spec := cfg.collections[s.clients[i].collection];
    match move
    case CheckLock(at, answered) => CheckLockStep(s, i, at, answered)
    case InsertLock(at, ok) => InsertLockStep(s, i, at, ok, cfg.lockTime)
    case TakeNumber(id) => TakeNumberStep(spec, s, i, id)
    case Plan(listed) => PlanStep(spec, s, i, listed)
    case SetQuota(listed) => SetQuotaStep(spec, s, i, listed)
    case GiveUp => GiveUpStep(s, i)
    case WriteSome(content) => WriteSomeStep(s, i, content)
    case FinishCopy(turns) => FinishCopyStep(s, i, turns)
    case Panic => PanicStep(s, i)
    case Discard => DiscardStep(s, i)
    case Register(ok) => RegisterStep(s, i, ok)
    case DeleteRow(ok) => DeleteRowStep(s, i, ok)
    case DeleteBlob(ok) => DeleteBlobStep(s, i, ok)
    case Unlock(ok) => UnlockStep(s, i, ok)
  }

  /** Only client `i` changes, and it stays with its collection. */
  ghost predicate OnlyMoves(s: State, s': State, i: nat) {
    && i in s.clients && i in s'.clients && s'.clients == s.clients[i := s'.clients[i]]
    && s'.clients[i].collection == s.clients[i].collection
  }

  lemma DeleteRowOnlyMoves(s: State, i: nat, ok: bool)
    requires i in s.clients && DeleteRowStep(s, i, ok).Some?
    ensures OnlyMoves(s, DeleteRowStep(s, i, ok).value, i)
  {
  }

  lemma DeleteBlobOnlyMoves(s: State, i: nat, ok: bool)
    requires i in s.clients && DeleteBlobStep(s, i, ok).Some?
    ensures OnlyMoves(s, DeleteBlobStep(s, i, ok).value, i)
  {
  }

  lemma EarlyOnlyMoves(cfg: Config, s: State, i: nat, move: Move)
    requires i in s.clients && s.clients[i].collection in cfg.collections
    requires cfg.collections[s.clients[i].collection].maxBackups >= 1 && Moved(cfg, s, i, move).Some?
    requires move.CheckLock? || move.InsertLock? || move.TakeNumber? || move.Plan? || move.SetQuota? || move.GiveUp?
    ensures OnlyMoves(s, Moved(cfg, s, i, move).value, i)
  {
  }

  lemma LateOnlyMoves(cfg: Config, s: State, i: nat, move: Move)
    requires i in s.clients && s.clients[i].collection in cfg.collections
    requires cfg.collections[s.clients[i].collection].maxBackups >= 1 && Moved(cfg, s, i, move).Some?
    requires move.FinishCopy? || move.Panic? || move.Discard? || move.Register? || move.Unlock?
    ensures OnlyMoves(s, Moved(cfg, s, i, move).value, i)
  {
  }

  /** A move changes its own client and no other. */
  lemma MoveOnlyMoves(cfg: Config, s: State, i: nat, move: Move)
    requires i in s.clients && s.clients[i].collection in cfg.collections
    requires cfg.collections[s.clients[i].collection].maxBackups >= 1 && Moved(cfg, s, i, move).Some?
    ensures OnlyMoves(s, Moved(cfg, s, i, move).value, i)
  {
    if move.WriteSome? {
      assert s.clients == s.clients[i := s.clients[i]];
    } else if move.DeleteRow? {
      DeleteRowOnlyMoves(s, i, move.ok);
    } else if move.DeleteBlob? {
      DeleteBlobOnlyMoves(s, i, move.ok);
    } else if move.FinishCopy? || move.Panic? || move.Discard? || move.Register? || move.Unlock? {
      LateOnlyMoves(cfg, s, i, move);
    } else {
      EarlyOnlyMoves(cfg, s, i, move);
    }
  }

  predicate Configured(cfg: Config) {
    forall c :: c in cfg.collections ==> cfg.collections[c].maxBackups >= 1
  }

  function Step(cfg: Config, s: State, a: Action): Option<State>
    requires Configured(cfg)
  {
    match a
    case Tick(to) => if to < s.now then None else Some(s.(now := to))
    case Arrive(i, c) =>
      if i in s.clients || c !in cfg.collections then None
      else Some(s.(clients := s.clients[i := Client(c, 0, Arrived)]))
    // run by any request, at random, with a clock read before the statement
    case CleanUp(at) =>
      if at > s.now then None
      else Some(s.(locks := LocksService.Unexpired(s.locks, at)))
    case Act(i, move) =>
      if i in s.clients && s.clients[i].collection in cfg.collections then Moved(cfg, s, i, move) else None
  }

  /** No holder has outlived its lock. */
  ghost predicate Timely(s: State) {
    forall i :: i in s.clients && Holds(s.clients[i].phase) ==> s.now <= s.clients[i].expires
  }

  /** A step after which every holder is still within its lock. */
  ghost predicate Next(cfg: Config, s: State, a: Action, s': State)
    requires Configured(cfg)
  {
    Step(cfg, s, a) == Some(s') && Timely(s')
  }

  datatype Trace = Trace(states: seq<State>, actions: seq<Action>)

  /** The trace is an admissible run from `s` to `s'`. */
  ghost predicate Leads(cfg: Config, s: State, t: Trace, s': State)
    requires Configured(cfg)
  {
    && |t.states| == |t.actions| + 1 && t.states[0] == s && t.states[|t.actions|] == s'
    && forall k {:trigger t.actions[k]} :: 0 <= k < |t.actions| ==>
      Next(cfg, t.states[k], t.actions[k], t.states[k + 1])
  }

  ghost predicate ReachableFrom(cfg: Config, s: State, s': State)
    requires Configured(cfg)
  {
    exists t :: Leads(cfg, s, t, s')
  }

  /** `s` is a state of some admissible run from an empty repository. */
  ghost predicate Reachable(cfg: Config, s: State)
    requires Configured(cfg)
  {
    ReachableFrom(cfg, Init(), s)
  }

  /** What the start of a trace satisfies and every step keeps holds all along it. */
  lemma {:induction false} TraceInduction(cfg: Config, s: State, t: Trace, s': State, p: State -> bool, k: nat)
    requires Configured(cfg) && Leads(cfg, s, t, s') && k <= |t.actions|
    requires p(s) && forall u, a, v :: p(u) && Next(cfg, u, a, v) ==> p(v)
    ensures p(t.states[k])
  {
    if k > 0 {
      TraceInduction(cfg, s, t, s', p, k - 1);
      assert Next(cfg, t.states[k - 1], t.actions[k - 1], t.states[k]);
    }
  }

  /** So it holds wherever a run leads. */
  lemma RunInduction(cfg: Config, s: State, s': State, p: State -> bool)
    requires Configured(cfg) && ReachableFrom(cfg, s, s')
    requires p(s) && forall u, a, v :: p(u) && Next(cfg, u, a, v) ==> p(v)
    ensures p(s')
  {
    var t :| Leads(cfg, s, t, s');
    TraceInduction(cfg, s, t, s', p, |t.actions|);
  }

  /** The versions of `c` of which no deletion has failed. */
  function Live(s: State, c: string): seq<UploadedVersion> {
    Survivors(Rows(s.table, c), s.stuck)
  }

  /** No upload to `c` is in progress. */
  ghost predicate Quiet(s: State, c: string) {
    forall i :: i in s.clients && s.clients[i].collection == c ==> !Holds(s.clients[i].phase)
  }
}

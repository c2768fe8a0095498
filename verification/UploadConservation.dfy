/**
 * Nothing is left behind: the store holds the live versions, what a request still accounts for, and known leftovers.
 */
module UploadConservation {
  import opened Options
  import opened Versions
  import opened UploadProtocol
  import opened UploadSafety

  /** The request will register or delete the blob at `p`. */
  predicate Claims(ph: Phase, p: string) {
    match ph
    case Copying(v, _, _) => Path(v) == p
    case Stored(v, _) => Path(v) == p
    case Discarding(v, _, _) => Path(v) == p
    case Cleaning(head, _, rowGone) => rowGone && Path(head) == p
    case _ => false
  }

  ghost predicate Accounted(s: State, p: string) {
    || p in s.leaked
    || (exists v :: v in s.table && v.id !in s.stuck && Path(v) == p)
    || (exists i :: i in s.clients && Claims(s.clients[i].phase, p))
  }

  ghost predicate NothingLost(s: State) {
    (forall p :: p in s.blobs ==> Accounted(s, p)) && forall p :: p in s.leaked ==> p in s.blobs
  }

  /** Only client `i` moves, rows stay, and what it gives up it has handed over, deleted or failed to delete. */
  lemma ClaimsCarryOver(s: State, s': State, i: nat)
    requires NothingLost(s) && i in s.clients && i in s'.clients && s'.clients == s.clients[i := s'.clients[i]]
    requires forall p :: p in s'.leaked ==> p in s'.blobs
    requires forall p :: p in s.leaked && p in s'.blobs ==> Accounted(s', p)
    requires forall v :: v in s.table && v.id !in s.stuck && Path(v) in s'.blobs ==> Accounted(s', Path(v))
    requires forall p :: p in s'.blobs && p !in s.blobs ==> Accounted(s', p)
    requires forall p :: p in s'.blobs && Claims(s.clients[i].phase, p) ==> Accounted(s', p)
    ensures NothingLost(s')
  {
    forall p | p in s'.blobs
      ensures Accounted(s', p)
    {
      if p in s.blobs {
        assert Accounted(s, p);
        if j :| j in s.clients && j != i && Claims(s.clients[j].phase, p) {
          assert s'.clients[j] == s.clients[j];
        }
      }
    }
  }

  lemma RowsAccount(s: State, v: UploadedVersion)
    requires v in s.table && v.id !in s.stuck
    ensures Accounted(s, Path(v))
  {
  }

  lemma ClientAccounts(s: State, i: nat, p: string)
    requires i in s.clients && Claims(s.clients[i].phase, p)
    ensures Accounted(s, p)
  {
  }

  lemma CleanRowAccounts(s: State, i: nat, ok: bool)
    requires NothingLost(s) && IdsOk(s) && i in s.clients && DeleteRowStep(s, i, ok).Some?
    requires s.clients[i].phase.Cleaning? ==> forall v :: v in s.table && v.id == s.clients[i].phase.head.id ==>
             v == s.clients[i].phase.head
    ensures NothingLost(DeleteRowStep(s, i, ok).value)
  {
    var s', ph := DeleteRowStep(s, i, ok).value, s.clients[i].phase;
    forall v | v in s.table && v.id !in s.stuck && Path(v) in s'.blobs
      ensures Accounted(s', Path(v))
    {
      if ph.Cleaning? && v == ph.head {
        ClientAccounts(s', i, Path(v));
      } else {
        WithoutMember(s.table, if ph.Cleaning? then ph.head.id else ph.version.id, v);
        RowsAccount(s', v);
      }
    }
    forall p | Claims(ph, p)
      ensures Accounted(s', p)
    {
      ClientAccounts(s', i, p);
    }
    ClaimsCarryOver(s, s', i);
  }

  lemma RegisterAccounts(s: State, i: nat, ok: bool)
    requires NothingLost(s) && i in s.clients && RegisterStep(s, i, ok).Some?
             && s.clients[i].phase.version.id !in s.stuck
    ensures NothingLost(RegisterStep(s, i, ok).value)
  {
    var s', ph := RegisterStep(s, i, ok).value, s.clients[i].phase;
    forall v | v in s.table && v.id !in s.stuck
      ensures Accounted(s', Path(v))
    {
      RowsAccount(s', v);
    }
    if ok {
      assert s'.table[|s.table|] == ph.version;
      RowsAccount(s', ph.version);
    } else {
      ClientAccounts(s', i, Path(ph.version));
    }
    ClaimsCarryOver(s, s', i);
  }

  /** The path is gone from the store, or it is a known leftover now; everything else is as before. */
  lemma BlobGone(s: State, s': State, path: string, ok: bool)
    requires forall p :: p in s.leaked ==> p in s.blobs
    requires s'.blobs == (if ok then s.blobs - {path} else s.blobs)
    requires s'.leaked == (if ok then s.leaked - {path} else LeakedWith(s, path))
    ensures path in s'.blobs ==> path in s'.leaked
    ensures forall p :: p in s'.leaked ==> p in s'.blobs
    ensures forall p :: p in s.leaked && p in s'.blobs ==> p in s'.leaked
    ensures forall p :: p in s'.blobs ==> p in s.blobs
  {
  }

  lemma DeleteBlobAccounts(s: State, i: nat, ok: bool)
    requires NothingLost(s) && i in s.clients && DeleteBlobStep(s, i, ok).Some?
    ensures NothingLost(DeleteBlobStep(s, i, ok).value)
  {
    var s', ph := DeleteBlobStep(s, i, ok).value, s.clients[i].phase;
    BlobGone(s, s', Path(if ph.Discarding? then ph.version else ph.head), ok);
    forall v | v in s.table && v.id !in s.stuck
      ensures Accounted(s', Path(v))
    {
      RowsAccount(s', v);
    }
    ClaimsCarryOver(s, s', i);
  }

  /** Moves after which the client claims at least what it did, and that store nothing else. */
  lemma PlainMoveAccounts(cfg: Config, s: State, i: nat, move: Move)
    requires Configured(cfg) && NothingLost(s) && i in s.clients && s.clients[i].collection in cfg.collections
    requires Moved(cfg, s, i, move).Some? && !move.Register? && !move.DeleteRow? && !move.DeleteBlob?
    ensures NothingLost(Moved(cfg, s, i, move).value)
  {
    var s' := Moved(cfg, s, i, move).value;
    PlainMoveClaims(cfg, s, i, move);
    forall v | v in s.table && v.id !in s.stuck
      ensures Accounted(s', Path(v))
    {
      RowsAccount(s', v);
    }
    forall p | Claims(s'.clients[i].phase, p)
      ensures Accounted(s', p)
    {
      ClientAccounts(s', i, p);
    }
    ClaimsCarryOver(s, s', i);
  }

  /** What the client claimed or had left behind stays accounted for, and nothing new appears that it does not claim. */
  ghost predicate ClaimsKept(s: State, s': State, i: nat) {
    && s'.table == s.table && s'.stuck == s.stuck && OnlyMoves(s, s', i)
    && (forall p :: p in s'.blobs && (p in s.leaked || Claims(s.clients[i].phase, p)) ==>
          p in s'.leaked || Claims(s'.clients[i].phase, p))
    && (forall p :: p in s'.leaked ==> p in s.leaked || p in s'.blobs)
    && (forall p :: p in s.blobs ==> p in s'.blobs)
    && (forall p :: p in s'.blobs ==> p in s.blobs || Claims(s'.clients[i].phase, p))
  }

  lemma CopyMoveClaims(s: State, s': State, i: nat)
    requires i in s.clients && s.clients[i].phase.Copying?
    requires PanicStep(s, i) == Some(s') || DiscardStep(s, i) == Some(s')
          || (exists content :: WriteSomeStep(s, i, content) == Some(s'))
          || (exists turns :: FinishCopyStep(s, i, turns) == Some(s'))
    ensures ClaimsKept(s, s', i)
  {
    assert s.clients == s.clients[i := s.clients[i]];
  }

  lemma PlainMoveClaims(cfg: Config, s: State, i: nat, move: Move)
    requires Configured(cfg) && i in s.clients && s.clients[i].collection in cfg.collections
    requires Moved(cfg, s, i, move).Some? && !move.Register? && !move.DeleteRow? && !move.DeleteBlob?
    ensures ClaimsKept(s, Moved(cfg, s, i, move).value, i)
  {
    MoveOnlyMoves(cfg, s, i, move);
    if s.clients[i].phase.Copying? {
      CopyMoveClaims(s, Moved(cfg, s, i, move).value, i);
    }
  }

  lemma EnvironmentAccounts(cfg: Config, s: State, a: Action)
    requires Configured(cfg) && NothingLost(s) && !a.Act? && Step(cfg, s, a).Some?
    ensures NothingLost(Step(cfg, s, a).value)
  {
    var s' := Step(cfg, s, a).value;
    forall p | p in s'.blobs
      ensures Accounted(s', p)
    {
      assert Accounted(s, p);
      if i :| i in s.clients && Claims(s.clients[i].phase, p) {
        assert s'.clients[i] == s.clients[i];
      }
    }
  }

  lemma MoveAccounts(cfg: Config, s: State, i: nat, move: Move)
    requires Configured(cfg) && IdsOk(s) && NothingLost(s) && i in s.clients && ClientOk(cfg, s, i)
    requires Moved(cfg, s, i, move).Some?
    ensures NothingLost(Moved(cfg, s, i, move).value)
  {
    if move.Register? {
      assert VersionFresh(s, s.clients[i].phase);
      RegisterAccounts(s, i, move.ok);
    } else if move.DeleteBlob? {
      DeleteBlobAccounts(s, i, move.ok);
    } else if move.DeleteRow? {
      if s.clients[i].phase.Cleaning? { HeadInTable(cfg, s, i); }
      CleanRowAccounts(s, i, move.ok);
    } else {
      PlainMoveAccounts(cfg, s, i, move);
    }
  }

  lemma StepAccounts(cfg: Config, s: State, a: Action, s': State)
    requires Sound(cfg) && Inv(cfg, s) && NothingLost(s) && Next(cfg, s, a, s')
    ensures NothingLost(s')
  {
    if a.Act? {
      assert ClientOk(cfg, s, a.client);
      MoveAccounts(cfg, s, a.client, a.move);
    } else {
      EnvironmentAccounts(cfg, s, a);
    }
  }

  lemma ReachableAccounts(cfg: Config, s: State)
    requires Sound(cfg) && Reachable(cfg, s)
    ensures NothingLost(s)
  {
    InitOk(cfg);
    forall u, a, v | Inv(cfg, u) && Timely(u) && NothingLost(u) && Next(cfg, u, a, v)
      ensures Inv(cfg, v) && NothingLost(v)
    {
      StepKeeps(cfg, u, a, v);
      StepAccounts(cfg, u, a, v);
    }
    RunInduction(cfg, Init(), s, u => Inv(cfg, u) && Timely(u) && NothingLost(u));
  }

  /** In every reachable state each blob is a live version's, claimed by a request, or a known leftover. */
  lemma EveryBlobAccounted(cfg: Config, s: State, p: string)
    requires Sound(cfg) && Reachable(cfg, s) && p in s.blobs
    ensures Accounted(s, p)
  {
    ReachableAccounts(cfg, s);
  }

  /**
   * Conservation: when no request is in progress, the store holds exactly the blobs of the live versions, the ones
   * whose deletion failed, and the ones whose upload panicked before its size could be read.
   */
  lemma StoreHoldsExactlyTheRegistry(cfg: Config, s: State, p: string)
    requires Sound(cfg) && Reachable(cfg, s)
    requires forall i :: i in s.clients ==> !Holds(s.clients[i].phase)
    ensures p in s.blobs <==> p in s.leaked || exists v :: v in s.table && v.id !in s.stuck && Path(v) == p
  {
    ReachableAccounts(cfg, s);
    assert p in s.blobs ==> Accounted(s, p);
    if v :| v in s.table && v.id !in s.stuck && Path(v) == p {
      ReachableKeeps(cfg, s);
      ReachableTableConfigured(cfg, s);
      assert CollectionOk(cfg, s, v.collectionId);
      RowsMember(s.table, v.collectionId, v);
    }
  }

}

/**
 * Collections nothing can be uploaded to, and collections that admit too much: what overflow comes to over whole runs.
 */
module UploadRefused {
  import opened Options
  import opened Versions
  import opened Quota
  import opened Int64
  import opened UploadProtocol
  import opened UploadSafety
  import opened Handler
  import opened UploadRefinement
  import Rotation
  import Stream

  /** The limit computed for an empty collection lets no upload through. */
  predicate Refuses(spec: Spec) {
    match MaximumUpload64(spec, 0)
    case Corrupted => true
    case Allowed(bytes) => bytes < |Stream.HEADER|
  }

  /** Sizes as int64 values; nothing is assumed about their product. */
  predicate InRange(spec: Spec) {
    spec.maxBackups >= 1 && 0 <= spec.maxOneVersion < TWO_63 && 0 <= spec.maxCollection < TWO_63
  }

  /**
   * Exactly which configurations let something in, as the machine computes: the limit, from the extra space cut down to
   * 64 bits, must hold an armor header and not wrap below zero.
   */
  lemma RefusesIff(spec: Spec)
    requires InRange(spec)
    ensures !Refuses(spec) <==> |Stream.HEADER| <= ExtraSpace(spec) % TWO_64 + spec.maxOneVersion < TWO_63
  {
    WrapSum(spec.maxCollection, spec.maxBackups * spec.maxOneVersion);
    LowBits(ExtraSpace(spec), spec.maxOneVersion);
  }

  /** The machine's extra space and limit, from the low bits of the true extra space. */
  lemma LowBits(extra: int, one: int)
    requires 0 <= one < TWO_63
    ensures Wrap(extra) >= 0 <==> extra % TWO_64 < TWO_63
    ensures Wrap(extra) >= 0 ==> Wrap(extra) == extra % TWO_64
    ensures Wrap(extra) >= 0 && extra % TWO_64 + one < TWO_63 ==> Wrap(Wrap(extra) + one) == extra % TWO_64 + one
    ensures Wrap(extra) >= 0 && extra % TWO_64 + one >= TWO_63 ==> Wrap(Wrap(extra) + one) < 0
  {
    WrapSign(extra);
    WrapShift(extra % TWO_64, extra / TWO_64);
    WrapSign(extra % TWO_64 + one);
  }

  /** Where the arithmetic is exact, that is: no negative extra space, and room for a header in the whole of it. */
  lemma RefusesExactly(spec: Spec)
    requires SpecFits(spec)
    ensures Refuses(spec) <==> ExtraSpace(spec) < 0 || spec.maxOneVersion + ExtraSpace(spec) < |Stream.HEADER|
  {
    ExtraSpaceExact(spec);
    if ExtraSpace(spec) >= 0 { QuotaTight(spec, 0, 0); }
  }

  // ---------------------------------------------------------------- nothing gets in

  /** What a request to such a collection can come to, and that every request's version belongs to its collection. */
  predicate Barred(c: string, client: Client) {
    && (HasVersion(client.phase) ==> client.phase.version.collectionId == client.collection)
    && (client.collection == c ==>
          match client.phase
          case Planned(_, doomed) => doomed == []
          case Copying(_, doomed, limit) => doomed == [] && limit < |Stream.HEADER|
          case Stored(_, _) => false
          case Discarding(_, doomed, _) => doomed == []
          case Cleaning(_, _, _) => false
          case _ => true)
  }

  ghost predicate StaysEmpty(s: State, c: string) {
    && Rows(s.table, c) == [] && Registered(s, c) == 0 && c !in s.lost
    && forall i :: i in s.clients ==> Barred(c, s.clients[i])
  }

  lemma NothingCopied(limit: int, turns: seq<Stream.Turn>)
    requires limit < |Stream.HEADER|
    ensures !Stream.Copy(Stream.StandardChain(limit), turns, BUFFER_LEN).0.Copied?
  {
    Stream.StandardChainExact(limit, turns, BUFFER_LEN);
    Stream.AdmitsIff(limit, BUFFER_LEN);
  }

  lemma ListedNothing(listed: seq<UploadedVersion>)
    requires multiset(listed) == multiset{}
    ensures listed == []
  {
    assert |listed| == |multiset(listed)|;
  }

  lemma PlanBarred(spec: Spec, s: State, i: nat, c: string, listed: seq<UploadedVersion>)
    requires i in s.clients && StaysEmpty(s, c) && spec.maxBackups >= 1 && PlanStep(spec, s, i, listed).Some?
    ensures Barred(c, PlanStep(spec, s, i, listed).value.clients[i])
  {
    assert Barred(c, s.clients[i]);
    if s.clients[i].collection == c { ListedNothing(listed); }
  }

  lemma QuotaBarred(spec: Spec, s: State, i: nat, c: string, listed: seq<UploadedVersion>)
    requires i in s.clients && StaysEmpty(s, c) && (s.clients[i].collection == c ==> Refuses(spec))
             && SetQuotaStep(spec, s, i, listed).Some?
    ensures Barred(c, SetQuotaStep(spec, s, i, listed).value.clients[i])
  {
    assert Barred(c, s.clients[i]);
    if s.clients[i].collection == c {
      ListedNothing(listed);
      assert Sum(ExcessExcept(spec.maxOneVersion, Ids(s.clients[i].phase.doomed)), listed) == 0;
    }
  }

  lemma CopyBarred(s: State, i: nat, c: string, turns: seq<Stream.Turn>)
    requires i in s.clients && Barred(c, s.clients[i]) && FinishCopyStep(s, i, turns).Some?
    ensures Barred(c, FinishCopyStep(s, i, turns).value.clients[i])
  {
    if s.clients[i].collection == c { NothingCopied(s.clients[i].phase.limit, turns); }
  }

  lemma DeleteBarred(s: State, i: nat, c: string, move: Move)
    requires i in s.clients && Barred(c, s.clients[i])
    requires (move.DeleteRow? && DeleteRowStep(s, i, move.ok).Some?)
             || (move.DeleteBlob? && DeleteBlobStep(s, i, move.ok).Some?)
    ensures move.DeleteRow? ==> Barred(c, DeleteRowStep(s, i, move.ok).value.clients[i])
    ensures move.DeleteBlob? ==> Barred(c, DeleteBlobStep(s, i, move.ok).value.clients[i])
  {
  }

  lemma RegisterBarred(s: State, i: nat, c: string, ok: bool)
    requires i in s.clients && Barred(c, s.clients[i]) && RegisterStep(s, i, ok).Some?
    ensures Barred(c, RegisterStep(s, i, ok).value.clients[i])
  {
    assert !HasVersion(CleaningOf(s.clients[i].phase.doomed));
  }

  /** The steps before the plan, and those that give up. */
  lemma PlainBarred(cfg: Config, s: State, i: nat, move: Move, c: string)
    requires Configured(cfg) && i in s.clients && Barred(c, s.clients[i]) && s.clients[i].collection in cfg.collections
    requires !move.Plan? && !move.SetQuota? && !move.FinishCopy? && !move.Register? && !move.DeleteRow?
             && !move.DeleteBlob?
    requires Moved(cfg, s, i, move).Some?
    ensures i in Moved(cfg, s, i, move).value.clients && Barred(c, Moved(cfg, s, i, move).value.clients[i])
  {
  }

  lemma MoveBarred(cfg: Config, s: State, i: nat, move: Move, c: string)
    requires Configured(cfg) && c in cfg.collections && Refuses(cfg.collections[c]) && StaysEmpty(s, c)
    requires i in s.clients && s.clients[i].collection in cfg.collections && Moved(cfg, s, i, move).Some?
    ensures i in Moved(cfg, s, i, move).value.clients && Barred(c, Moved(cfg, s, i, move).value.clients[i])
  {
    assert Barred(c, s.clients[i]);
    var spec := cfg.collections[s.clients[i].collection];
    if move.DeleteRow? || move.DeleteBlob? {
      DeleteBarred(s, i, c, move);
    } else if move.Register? {
      RegisterBarred(s, i, c, move.ok);
    } else if move.Plan? {
      PlanBarred(spec, s, i, c, move.listed);
    } else if move.SetQuota? {
      QuotaBarred(spec, s, i, c, move.listed);
    } else if move.FinishCopy? {
      CopyBarred(s, i, c, move.turns);
    } else {
      PlainBarred(cfg, s, i, move, c);
    }
  }

  lemma RowMoveEmpty(s: State, i: nat, move: Move, c: string)
    requires i in s.clients && StaysEmpty(s, c) && (move.Register? || move.DeleteRow?)
    requires (if move.Register? then RegisterStep(s, i, move.ok) else DeleteRowStep(s, i, move.ok)).Some?
    ensures var s' := (if move.Register? then RegisterStep(s, i, move.ok) else DeleteRowStep(s, i, move.ok)).value;
            Rows(s'.table, c) == [] && Registered(s', c) == 0 && c !in s'.lost
  {
    var ph := s.clients[i].phase;
    assert Barred(c, s.clients[i]);
    if move.Register? {
      RowsOfAppend(s.table, ph.version, c);
    } else {
      RowsOfWithout(s.table, if ph.Cleaning? then ph.head.id else ph.version.id, c);
    }
  }

  lemma MoveEmpty(cfg: Config, s: State, i: nat, move: Move, c: string)
    requires Configured(cfg) && StaysEmpty(s, c) && i in s.clients && s.clients[i].collection in cfg.collections
    requires Moved(cfg, s, i, move).Some?
    ensures var s' := Moved(cfg, s, i, move).value; Rows(s'.table, c) == [] && Registered(s', c) == 0 && c !in s'.lost
  {
    if move.Register? || move.DeleteRow? {
      RowMoveEmpty(s, i, move, c);
    } else {
      DataSame(cfg, s, i, move);
    }
  }

  lemma DataSame(cfg: Config, s: State, i: nat, move: Move)
    requires Configured(cfg) && i in s.clients && s.clients[i].collection in cfg.collections
    requires Moved(cfg, s, i, move).Some? && !move.Register? && !move.DeleteRow?
    ensures var s' := Moved(cfg, s, i, move).value;
            s'.table == s.table && s'.registrations == s.registrations && s'.lost == s.lost
  {
  }

  lemma StepEmpty(cfg: Config, s: State, a: Action, s': State, c: string)
    requires Configured(cfg) && c in cfg.collections && Refuses(cfg.collections[c]) && StaysEmpty(s, c)
             && Next(cfg, s, a, s')
    ensures StaysEmpty(s', c)
  {
    if a.Act? {
      MoveEmpty(cfg, s, a.client, a.move, c);
      MoveBarred(cfg, s, a.client, a.move, c);
      MoveOnlyMoves(cfg, s, a.client, a.move);
    }
  }

  /** Such a collection stays empty in every run. */
  lemma ReachableEmpty(cfg: Config, s: State, c: string)
    requires Configured(cfg) && c in cfg.collections && Refuses(cfg.collections[c]) && Reachable(cfg, s)
    ensures StaysEmpty(s, c)
  {
    forall u, a, v | StaysEmpty(u, c) && Next(cfg, u, a, v)
      ensures StaysEmpty(v, c)
    {
      StepEmpty(cfg, u, a, v, c);
    }
    RunInduction(cfg, Init(), s, u => StaysEmpty(u, c));
  }

  // ---------------------------------------------------------------- something gets in

  /** An armor header and nothing else, in reads that skip the footer check. */
  function HeaderOnly(): seq<Stream.Turn> {
    [Stream.Reads(Stream.HEADER), Stream.Reads([]), Stream.Ends([])]
  }

  lemma HeaderOnlyAccepted(limit: int)
    requires limit >= |Stream.HEADER|
    ensures Stream.Copy(Stream.StandardChain(limit), HeaderOnly(), BUFFER_LEN).0.Copied?
            && Stream.Accepts(HeaderOnly(), limit, BUFFER_LEN)
  {
    Stream.EmptyReadSkipsFooter(limit, BUFFER_LEN);
    Stream.StandardChainExact(limit, HeaderOnly(), BUFFER_LEN);
  }

  function FirstUpload(): Inputs {
    Inputs(0, [], [], HeaderOnly(), Registers, Faults(false, false), [])
  }

  lemma FirstUploadRegistered(spec: Spec, c: string)
    requires spec.maxBackups >= 1 && !Refuses(spec)
    ensures var st := Store([], map[]);
            Applicable(spec, st, c, FirstUpload()) && |Rows(Effect(spec, st, c, FirstUpload()).table, c)| == 1
  {
    var x := FirstUpload();
    assert Rows([], c) == [] && Rotation.Doomed([], spec.maxBackups) == [];
    assert Sum(ExcessExcept(spec.maxOneVersion, {}), []) == 0 && Ids([]) == {};
    assert UploadLimit(spec, x) == MaximumUpload64(spec, 0);
    HeaderOnlyAccepted(UploadLimit(spec, x).bytes);
    var v := NewVersion(spec, [], c, 0).(filesize := Copied(UploadLimit(spec, x).bytes, x).0.total);
    assert Effect(spec, Store([], map[]), c, x).table == [v];
    RowsOfAppend([], v, c);
    assert [] + [v] == [v];
  }

  /** Some run brings the collection, with no upload in progress, beyond its limits. */
  ghost predicate LimitsBreak(cfg: Config, c: string)
    requires Configured(cfg) && c in cfg.collections
  {
    exists s :: Reachable(cfg, s) && Quiet(s, c) && !Limits(cfg.collections[c], Live(s, c))
  }

  lemma FirstUploadRuns(cfg: Config, c: string) returns (v: State)
    requires Configured(cfg) && c in cfg.collections && cfg.lockTime >= 0 && !Refuses(cfg.collections[c])
    ensures Reachable(cfg, v) && Quiet(v, c) && |Live(v, c)| == 1
  {
    var spec := cfg.collections[c];
    FirstUploadRegistered(spec, c);
    v := UploadRuns(cfg, Init(), c, 0, FirstUpload());
    assert StuckIds([], []) == {} && v.stuck == {};
    SurvivorsAll(Rows(v.table, c), {});
  }

  /**
   * Exactly which collections too small for their versions overflow harmfully, over whole runs: an upload gets in, and
   * the limits break, if and only if the limit that the machine computes holds an armor header and does not wrap below
   * zero.
   */
  lemma OverflowBreaksLimitsIff(cfg: Config, c: string)
    requires Configured(cfg) && c in cfg.collections && cfg.lockTime >= 0
    requires InRange(cfg.collections[c]) && ExtraSpace(cfg.collections[c]) < 0
    ensures LimitsBreak(cfg, c)
       <==> |Stream.HEADER| <= ExtraSpace(cfg.collections[c]) % TWO_64 + cfg.collections[c].maxOneVersion < TWO_63
  {
    var spec := cfg.collections[c];
    RefusesIff(spec);
    if Refuses(spec) {
      forall s | Reachable(cfg, s)
        ensures Limits(spec, Live(s, c))
      {
        ReachableEmpty(cfg, s, c);
      }
    } else {
      var v := FirstUploadRuns(cfg, c);
      SumOfParts(Excess(spec.maxOneVersion), Live(v, c));
    }
  }
}

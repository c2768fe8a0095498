/**
 * The storage service and the handler body as the holder of the lock runs it (pkg/storage/service.go,
 * pkg/http/collection.go:59-135).
 */
module StorageService {
  import opened Versions
  import opened Quota
  import opened UploadProtocol
  import opened UploadSafety
  import opened Handler
  import Rotation
  import Stream

  class Service {
    var table: seq<UploadedVersion>
    var blobs: map<string, seq<Byte>>

    constructor ()
      ensures Content() == Store([], map[])
    {
      table := [];
      blobs := map[];
    }

    ghost function Content(): Store
      reads this
    {
      Store(table, blobs)
    }

    /** `Delete`: the blob goes whatever became of the row. */
    method Delete(version: UploadedVersion, faults: Faults) returns (errors: nat)
      modifies this
      ensures Content() == Deleted(old(Content()), version, faults)
      ensures errors == 0 <==> !faults.rowFails && !faults.blobFails
    {
      errors := 0;
      if faults.rowFails {
        errors := errors + 1;
      } else {
        table := Without(table, version.id);
      }
      if faults.blobFails {
        errors := errors + 1;
      } else {
        blobs := blobs - {Path(version)};
      }
    }

    /** `CleanUpOlderVersions`: one failure does not stop the others. */
    method CleanUpOlderVersions(versions: seq<UploadedVersion>, faults: seq<Faults>) returns (isError: bool)
      requires |faults| == |versions|
      modifies this
      ensures Content() == Cleaned(old(Content()), versions, faults)
      ensures isError <==> exists f :: f in faults && (f.rowFails || f.blobFails)
    {
      isError := false;
      for n := 0 to |versions|
        invariant Cleaned(Content(), versions[n..], faults[n..]) == Cleaned(old(Content()), versions, faults)
        invariant isError <==> exists f :: f in faults[..n] && (f.rowFails || f.blobFails)
      {
        assert versions[n..][1..] == versions[n + 1..] && faults[n..][1..] == faults[n + 1..];
        assert faults[..n + 1] == faults[..n] + [faults[n]];
        var errors := Delete(versions[n], faults[n]);
        if errors > 0 {
          isError := true;
        }
      }
      assert faults[..|versions|] == faults;
    }

    /** Lines 59-107: the number, the rotation plan and the quota, from whatever order the rows are listed in. */
    method Plan(spec: Spec, c: string, x: Inputs)
        returns (version: UploadedVersion, versionsToDelete: seq<UploadedVersion>, limit: Limit)
      requires Applicable(spec, Content(), c, x)
      ensures version == NewVersion(spec, Rows(table, c), c, x.id)
      ensures versionsToDelete == Rotation.Doomed(x.listed, spec.maxBackups)
      ensures limit == UploadLimit(spec, x)
    {
      version := NewVersion(spec, Rows(table, c), c, x.id);
      var existing := new UploadedVersion[|x.listed|](k requires 0 <= k < |x.listed| => x.listed[k]);
      assert existing[..] == x.listed;
      versionsToDelete := Rotation.VersionsToDelete(existing, spec.maxBackups);
      limit := MaximumAllowedUpload(spec, x.relisted, versionsToDelete);
    }

    /**
     * Lines 109-129: the copy, and the discarding of what a failed or cancelled one left behind. When the size of the
     * written file cannot be read the handler panics, and what was written stays.
     */
    method Receive(version: UploadedVersion, limit: int, x: Inputs) returns (stored: bool, filesize: nat)
      requires forall t :: t in x.turns ==> |t.data| <= BUFFER_LEN
      modifies this
      ensures stored <==> Stream.Accepts(x.turns, limit, BUFFER_LEN) && !x.fate.Unread? && !x.fate.Cancelled?
      ensures stored ==> filesize == |Stream.Delivered(x.turns)|
      ensures var content := Copied(limit, x).1;
              var written := Store(old(table), old(blobs)[Path(version) := content]);
              && content <= Stream.Delivered(x.turns)
              && (stored ==> content == Stream.Delivered(x.turns))
              && Content() == if stored || (Stream.Accepts(x.turns, limit, BUFFER_LEN) && x.fate.Unread?) then written
                              else Deleted(written, version, x.discard)
    {
      var chain := new Stream.Chain(Stream.StandardChain(limit));
      var outcome, content := Stream.CopyStream(x.turns, chain, BUFFER_LEN);
      Stream.StandardChainExact(limit, x.turns, BUFFER_LEN);
      Stream.CopyIsFaithful(Stream.StandardChain(limit), x.turns, BUFFER_LEN);
      blobs := blobs[Path(version) := content];
      filesize := outcome.total;
      stored := false;
      if !outcome.Copied? || x.fate.Cancelled? {
        var _ := Delete(version, x.discard);
      } else {
        stored := !x.fate.Unread?;
      }
    }

    /** Lines 131-135: the registration, and the clean-up that follows it either way. */
    method Finish(version: UploadedVersion, versionsToDelete: seq<UploadedVersion>, x: Inputs)
      requires |x.faults| == |versionsToDelete| && (x.fate.Registers? || x.fate.Unregistered?)
      modifies this
      ensures Content() == AfterCopy(old(Content()), version, versionsToDelete, x)
    {
      if x.fate.Registers? {
        table := table + [version];
      } else {
        var _ := Delete(version, x.discard);
      }
      var _ := CleanUpOlderVersions(versionsToDelete, x.faults);
    }

    /**
     * The handler body as the holder of the lock runs it, on any registry and store. In a collection as a holder finds
     * it (`Uploadable`) the upload is registered exactly when it is accepted and nothing intervenes, the rows are as
     * `RowsAfter` says and the blobs as `BlobAfter` says, no other collection is touched, and the limits are kept
     * whatever goes wrong.
     */
    method Upload(spec: Spec, c: string, x: Inputs, ghost stuck: set<Uuid>) returns (registered: bool)
      requires Applicable(spec, Content(), c, x) && forall t :: t in x.turns ==> |t.data| <= BUFFER_LEN
      modifies this
      ensures Content() == Effect(spec, old(Content()), c, x)
      ensures registered <==> Received(spec, x) && x.fate.Registers?
      ensures old(Uploadable(spec, table, c, x.id, stuck)) ==>
                && |x.faults| == |DoomedOf(spec, old(Rows(table, c)))|
                && (registered <==> Accepted(spec, old(Rows(table, c)), x.turns) && x.fate.Registers?)
                && Rows(table, c) == RowsAfter(spec, old(Rows(table, c)), c, x)
                && Settled(spec, Rows(table, c), stuck + StuckBy(spec, old(Rows(table, c)), x))
                && (forall d :: d != c ==> Rows(table, d) == old(Rows(table, d)))
                && (forall p :: p in blobs <==> BlobAfter(spec, old(Content()), c, x, p))
                && (forall p :: p in blobs && p != Path(NewVersion(spec, old(Rows(table, c)), c, x.id)) ==>
                      blobs[p] == old(blobs)[p])
                && (registered ==>
                      var p := Path(NewVersion(spec, old(Rows(table, c)), c, x.id));
                      p in blobs && blobs[p] == Stream.Delivered(x.turns))
    {
      if Uploadable(spec, table, c, x.id, stuck) {
        ReceivedIff(spec, Content(), c, x, stuck);
        EffectRows(spec, Content(), c, x, stuck);
        EffectSettled(spec, Content(), c, x, stuck);
        if Received(spec, x) && x.fate.Registers? { RegisteredIsStored(spec, Content(), c, x, stuck); }
        forall p
          ensures p in Effect(spec, Content(), c, x).blobs <==> BlobAfter(spec, Content(), c, x, p)
          ensures p in Effect(spec, Content(), c, x).blobs && p != Path(NewVersion(spec, Rows(table, c), c, x.id)) ==>
                    Effect(spec, Content(), c, x).blobs[p] == blobs[p]
        {
          EffectBlobs(spec, Content(), c, x, stuck, p);
        }
      }
      registered := Handle(spec, c, x);
    }

    method Handle(spec: Spec, c: string, x: Inputs) returns (registered: bool)
      requires Applicable(spec, Content(), c, x) && forall t :: t in x.turns ==> |t.data| <= BUFFER_LEN
      modifies this
      ensures Content() == Effect(spec, old(Content()), c, x)
      ensures registered <==> Received(spec, x) && x.fate.Registers?
    {
      var version, versionsToDelete, limit := Plan(spec, c, x);
      if limit.Corrupted? {
        return false;
      }
      Stream.StandardChainExact(limit.bytes, x.turns, BUFFER_LEN);
      Stream.CopyIsFaithful(Stream.StandardChain(limit.bytes), x.turns, BUFFER_LEN);
      var stored, filesize := Receive(version, limit.bytes, x);
      if !stored {
        return false;
      }
      version := version.(filesize := filesize);
      Finish(version, versionsToDelete, x);
      return x.fate.Registers?;
    }
  }
}

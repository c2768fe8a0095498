/** Space accounting (pkg/collections/model.go:188-221, pkg/storage/service.go:105-171, pkg/health). */
module Quota {
  import opened Versions
  import opened Int64

  /** The part of a collection's configuration that limits its versions. */
  datatype Spec = Spec(template: string, maxBackups: int, maxOneVersion: int, maxCollection: int)

  /**
   * The sizes are int64 values, and the estimate for a full collection exceeds the collection by at most 2^63. The
   * estimate itself may wrap: `ExtraSpaceExactIff` shows that this bound is exactly what the arithmetic needs.
   */
  predicate SpecFits(spec: Spec) {
    && spec.maxBackups >= 1
    && 0 <= spec.maxOneVersion < TWO_63
    && 0 <= spec.maxCollection < TWO_63
    && spec.maxBackups * spec.maxOneVersion <= spec.maxCollection + TWO_63
  }

  function ExtraSpace(spec: Spec): int {
    spec.maxCollection - spec.maxBackups * spec.maxOneVersion
  }

  function Size(): UploadedVersion -> int {
    (v: UploadedVersion) => v.filesize
  }

  /** What a version takes above the single-version limit. */
  function Above(size: int, one: int): (r: int)
    ensures r >= 0
  {
    if size > one then size - one else 0
  }

  function Excess(one: int): UploadedVersion -> int {
    (v: UploadedVersion) => Above(v.filesize, one)
  }

  /** The excess of the versions whose id is not excluded. */
  function ExcessExcept(one: int, ids: set<Uuid>): UploadedVersion -> int {
    (v: UploadedVersion) => if v.id in ids then 0 else Above(v.filesize, one)
  }

  /** `GetEstimatedCollectionExtraSpace` as the machine computes it. */
  function ExtraSpace64(spec: Spec): int {
    Wrap(spec.maxCollection - Wrap(spec.maxBackups * spec.maxOneVersion))
  }

  datatype Limit = Allowed(bytes: int) | Corrupted

  /** `CalculateMaximumAllowedUploadFilesize`, with the sum of the excess already taken. */
  function MaximumUpload64(spec: Spec, used: int): Limit {
    var extra := ExtraSpace64(spec);
    if extra == 0 then Allowed(spec.maxOneVersion)
    else
      var remained := Wrap(extra - used);
      if remained < 0 then Corrupted else Allowed(Wrap(remained + spec.maxOneVersion))
  }

  /** `CalculateAllocatedSpaceAboveSingleVersionLimit`: exact up to the wrap-around of its int64 accumulator. */
  method AllocatedSpaceAboveLimit(spec: Spec, existing: seq<UploadedVersion>, excluding: seq<UploadedVersion>)
      returns (taken: int)
    ensures taken == Wrap(Sum(ExcessExcept(spec.maxOneVersion, Ids(excluding)), existing))
  {
    var ids: seq<Uuid> := [];
    for i := 0 to |excluding|
      invariant forall x :: x in ids <==> x in Ids(excluding[..i])
    {
      ids := ids + [excluding[i].id];
      assert excluding[..i + 1] == excluding[..i] + [excluding[i]];
    }
    assert excluding[..|excluding|] == excluding;

    taken := 0;
    ghost var w := ExcessExcept(spec.maxOneVersion, Ids(excluding));
    for i := 0 to |existing|
      invariant taken == Wrap(Sum(w, existing[..i]))
    {
      var version := existing[i];
      assert existing[..i + 1][..i] == existing[..i];
      WrapSum(Sum(w, existing[..i]), w(version));
      if version.id in ids {
        continue;
      }
      if version.filesize > spec.maxOneVersion {
        var diff := version.filesize - spec.maxOneVersion;
        taken := Wrap(taken + diff);
      }
    }
    assert existing[..|existing|] == existing;
  }

  /**
   * `CalculateMaximumAllowedUploadFilesize`, step by step in int64. Where the arithmetic is exact, a collection that
   * holds more above the single-version limit than it may is refused, whatever rows it holds, and otherwise the limit
   * is one version and all that is left of the extra space.
   */
  method MaximumAllowedUpload(spec: Spec, existing: seq<UploadedVersion>, excluding: seq<UploadedVersion>)
      returns (limit: Limit)
    ensures limit == MaximumUpload64(spec, Wrap(Sum(ExcessExcept(spec.maxOneVersion, Ids(excluding)), existing)))
    ensures var used := Sum(ExcessExcept(spec.maxOneVersion, Ids(excluding)), existing);
            SpecFits(spec) && Fits(ExtraSpace(spec) - used) ==> LimitIsExact(spec, used, limit)
  {
    LimitOverRows(spec, existing, Ids(excluding));
    var estimated := Wrap(spec.maxBackups * spec.maxOneVersion);
    var maxExtraSpace := Wrap(spec.maxCollection - estimated);
    if maxExtraSpace == 0 {
      return Allowed(spec.maxOneVersion);
    }
    var usedExtraSpace := AllocatedSpaceAboveLimit(spec, existing, excluding);
    var remained := Wrap(maxExtraSpace - usedExtraSpace);
    if remained < 0 {
      return Corrupted;
    }
    return Allowed(Wrap(remained + spec.maxOneVersion));
  }

  /**
   * The answer in terms of the configured sizes. Where they leave no extra space at all it is one version, whatever is
   * used; otherwise it is the error if more is used than they leave, and else one version and what is left.
   */
  predicate LimitIsExact(spec: Spec, used: int, limit: Limit) {
    var extra := spec.maxCollection - spec.maxBackups * spec.maxOneVersion;
    match limit
    case Corrupted => extra != 0 && used > extra
    case Allowed(bytes) =>
      (extra == 0 && bytes == spec.maxOneVersion)
        || (extra >= used && extra != 0 && bytes == spec.maxOneVersion + extra - used)
  }

  lemma LimitExact(spec: Spec, used: int)
    requires SpecFits(spec) && used >= 0 && Fits(ExtraSpace(spec) - used)
    ensures LimitIsExact(spec, used, MaximumUpload64(spec, used))
    ensures MaximumUpload64(spec, used).Corrupted? <==> ExtraSpace(spec) != 0 && used > ExtraSpace(spec)
  {
    ExtraSpaceExact(spec);
  }

  /** The same for the wrapped sum over any rows. */
  lemma LimitOverRows(spec: Spec, existing: seq<UploadedVersion>, excluded: set<Uuid>)
    ensures var used := Sum(ExcessExcept(spec.maxOneVersion, excluded), existing);
            SpecFits(spec) && Fits(ExtraSpace(spec) - used) ==>
              LimitIsExact(spec, used, MaximumUpload64(spec, Wrap(used)))
  {
    var used := Sum(ExcessExcept(spec.maxOneVersion, excluded), existing);
    SumOfParts(ExcessExcept(spec.maxOneVersion, excluded), existing);
    if SpecFits(spec) && Fits(ExtraSpace(spec) - used) {
      ExtraSpaceExact(spec);
      WrapSum(ExtraSpace(spec), used);
      LimitExact(spec, used);
    }
  }

  lemma SumOfZeros(w: UploadedVersion -> int, rows: seq<UploadedVersion>)
    requires forall v :: v in rows ==> w(v) == 0
    ensures Sum(w, rows) == 0
  {
    if rows != [] {
      assert rows[|rows| - 1] in rows;
    }
  }

  /** A sum of terms that are never negative bounds each of its parts. */
  lemma {:induction false} SumOfParts(w: UploadedVersion -> int, rows: seq<UploadedVersion>)
    requires forall v :: v in rows ==> 0 <= w(v)
    ensures 0 <= Sum(w, rows)
    ensures forall v :: v in rows ==> w(v) <= Sum(w, rows)
  {
    if rows != [] {
      var init, last := rows[..|rows| - 1], rows[|rows| - 1];
      assert rows == init + [last];
      SumOfParts(w, init);
    }
  }

  lemma IdsBehind(rows: seq<UploadedVersion>, k: nat)
    requires k <= |rows| && IdsDistinct(rows)
    ensures forall v :: v in rows[k..] ==> v.id !in Ids(rows[..k])
  {
  }

  /**
   * What the quota sees: however the database lists the rows, and with the doomed prefix excluded by id,
   * the sum is the excess of the rows that stay.
   */
  lemma ExcessOfRetained(one: int, rows: seq<UploadedVersion>, listed: seq<UploadedVersion>, k: nat)
    requires k <= |rows| && multiset(listed) == multiset(rows)
    requires IdsDistinct(rows)
    ensures Sum(ExcessExcept(one, Ids(rows[..k])), listed) == Sum(Excess(one), rows[k..])
  {
    var w := ExcessExcept(one, Ids(rows[..k]));
    SumPermutation(w, listed, rows);
    assert rows == rows[..k] + rows[k..];
    SumConcat(w, rows[..k], rows[k..]);
    SumOfZeros(w, rows[..k]);
    IdsBehind(rows, k);
    SumMonotone(w, Excess(one), rows[k..]);
    SumMonotone(Excess(one), w, rows[k..]);
  }

  lemma ProductBounds(m: int, n: int)
    requires m >= 1 && n >= 0
    ensures n <= m * n
  {
    assert m * n == (m - 1) * n + n && (m - 1) * n >= 0;
  }

  /**
   * The machine computes the true extra space if and only if that is an int64: wrapping the product on the way is
   * harmless.
   */
  lemma ExtraSpaceExactIff(spec: Spec)
    requires spec.maxBackups >= 1 && 0 <= spec.maxOneVersion < TWO_63 && 0 <= spec.maxCollection < TWO_63
    ensures ExtraSpace64(spec) == ExtraSpace(spec) <==> SpecFits(spec)
  {
    ProductBounds(spec.maxBackups, spec.maxOneVersion);
    WrapSum(spec.maxCollection, spec.maxBackups * spec.maxOneVersion);
  }

  /** For a configuration that fits, the machine's extra space is the true one. */
  lemma ExtraSpaceExact(spec: Spec)
    requires SpecFits(spec)
    ensures ExtraSpace64(spec) == ExtraSpace(spec)
    ensures spec.maxOneVersion + ExtraSpace(spec) <= spec.maxCollection
  {
    ProductBounds(spec.maxBackups, spec.maxOneVersion);
    ExtraSpaceExactIff(spec);
  }

  /**
   * The limit is tight. When what is kept fits the extra space, an upload is within the computed limit if and only if
   * what is kept and the upload together fit it; and the limit lies between one version and the whole collection.
   */
  lemma QuotaTight(spec: Spec, used: int, size: int)
    requires SpecFits(spec) && 0 <= used <= ExtraSpace(spec)
    ensures MaximumUpload64(spec, used).Allowed?
    ensures size <= MaximumUpload64(spec, used).bytes <==> used + Above(size, spec.maxOneVersion) <= ExtraSpace(spec)
    ensures spec.maxOneVersion <= MaximumUpload64(spec, used).bytes <= spec.maxCollection
  {
    ExtraSpaceExact(spec);
  }

  /** A configuration with less total space than its versions need is refused, whatever is stored. */
  lemma NegativeExtraSpaceRefuses(spec: Spec, used: int)
    requires SpecFits(spec) && ExtraSpace(spec) < 0
    requires 0 <= used && Fits(ExtraSpace(spec) - used)
    ensures MaximumUpload64(spec, used) == Corrupted
  {
    ExtraSpaceExact(spec);
  }

  /** Versions within the count and the extra space fit the collection. */
  lemma {:induction false} TotalWithinExcess(one: int, rows: seq<UploadedVersion>)
    ensures Sum(Size(), rows) <= |rows| * one + Sum(Excess(one), rows)
  {
    if rows != [] {
      TotalWithinExcess(one, rows[..|rows| - 1]);
    }
  }

  /**
   * A collection too small for its versions is recognised as corrupted unless its extra space wraps to a non-negative
   * number, which it does not where the arithmetic is exact.
   */
  lemma CorruptionMissedIff(spec: Spec)
    requires spec.maxBackups >= 1 && 0 <= spec.maxOneVersion < TWO_63 && 0 <= spec.maxCollection < TWO_63
    requires ExtraSpace(spec) < 0
    ensures MaximumUpload64(spec, 0).Allowed? <==> ExtraSpace(spec) % TWO_64 < TWO_63
    ensures MaximumUpload64(spec, 0).Allowed? ==> !SpecFits(spec)
  {
    WrapSum(spec.maxCollection, spec.maxBackups * spec.maxOneVersion);
    WrapSign(ExtraSpace(spec));
  }

  /** Overflow is real: four versions of 4 EiB multiply to zero bytes, and an empty collection then admits 4 EiB + 1. */
  lemma OverflowBreaksQuota()
    ensures var spec := Spec("${version}", 4, 0x4000_0000_0000_0000, 1);
            ExtraSpace(spec) < 0 && MaximumUpload64(spec, 0) == Allowed(0x4000_0000_0000_0001)
  {
    assert Wrap(4 * 0x4000_0000_0000_0000) == 0;
  }

  /** No version is larger than all of them together. */
  lemma EachWithinSum(versions: seq<UploadedVersion>)
    ensures (forall v :: v in versions ==> v.filesize >= 0) ==>
              forall v :: v in versions ==> v.filesize <= Sum(Size(), versions)
  {
    if forall v :: v in versions ==> v.filesize >= 0 { SumOfParts(Size(), versions); }
  }

  /** Sizes add up: the sum over a list is that over its parts, down to the single version's own size. */
  lemma SizesAddUp(versions: seq<UploadedVersion>, v: UploadedVersion)
    ensures Sum(Size(), []) == 0 && Sum(Size(), versions + [v]) == Sum(Size(), versions) + v.filesize
  {
    assert (versions + [v])[..|versions|] == versions;
  }

  /** `VersionsSizeValidator.Validate` (no error means healthy). */
  method ValidateVersionsSize(spec: Spec, versions: seq<UploadedVersion>) returns (healthy: bool)
    ensures healthy <==> Sum(ExcessExcept(spec.maxOneVersion, {}), versions) == 0
    ensures healthy <==> forall v :: v in versions ==> v.filesize <= spec.maxOneVersion
  {
    ghost var w := ExcessExcept(spec.maxOneVersion, {});
    for i := 0 to |versions|
      invariant Sum(w, versions[..i]) == 0
      invariant forall k :: 0 <= k < i ==> versions[k].filesize <= spec.maxOneVersion
    {
      assert versions[..i + 1][..i] == versions[..i];
      if versions[i].filesize > spec.maxOneVersion {
        SumOfParts(w, versions);
        assert versions[i] in versions && w(versions[i]) > 0;
        return false;
      }
    }
    assert versions[..|versions|] == versions;
    return true;
  }

  /** `SumOfVersionsValidator.Validate`. */
  method ValidateSumOfVersions(spec: Spec, versions: seq<UploadedVersion>) returns (healthy: bool)
    ensures healthy <==> Wrap(Sum(Size(), versions)) <= spec.maxCollection
    ensures Fits(Sum(Size(), versions)) && (forall v :: v in versions ==> v.filesize >= 0) ==>
              (healthy ==> forall v :: v in versions ==> v.filesize <= spec.maxCollection)
  {
    EachWithinSum(versions);
    var totalSize := 0;
    for i := 0 to |versions|
      invariant totalSize == Wrap(Sum(Size(), versions[..i]))
    {
      assert versions[..i + 1][..i] == versions[..i];
      WrapSum(Sum(Size(), versions[..i]), versions[i].filesize);
      totalSize := Wrap(totalSize + versions[i].filesize);
    }
    assert versions[..|versions|] == versions;
    return totalSize <= spec.maxCollection;
  }
}

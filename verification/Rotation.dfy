/** First-in first-out rotation (pkg/storage/rotation.go). */
module Rotation {
  import opened Versions

  ghost predicate Sorted(rows: seq<UploadedVersion>) {
    forall i, j :: 0 <= i < j < |rows| ==> rows[i].versionNumber <= rows[j].versionNumber
  }

  /** Inserts `v` into a sorted list, after every row with the same number. */
  function Insert(rows: seq<UploadedVersion>, v: UploadedVersion): seq<UploadedVersion> {
    if rows == [] || rows[|rows| - 1].versionNumber <= v.versionNumber then rows + [v]
    else Insert(rows[..|rows| - 1], v) + [rows[|rows| - 1]]
  }

  /** What `sort.SliceStable` leaves in the slice. */
  function SortByNumber(rows: seq<UploadedVersion>): seq<UploadedVersion> {
    if rows == [] then [] else Insert(SortByNumber(rows[..|rows| - 1]), rows[|rows| - 1])
  }

  lemma {:induction false} InsertPermutes(rows: seq<UploadedVersion>, v: UploadedVersion)
    ensures multiset(Insert(rows, v)) == multiset(rows) + multiset{v}
  {
    if rows != [] && v.versionNumber < rows[|rows| - 1].versionNumber {
      var last, init := rows[|rows| - 1], rows[..|rows| - 1];
      assert rows == init + [last];
      InsertPermutes(init, v);
    }
  }

  lemma {:induction false} InsertKeeps(rows: seq<UploadedVersion>, v: UploadedVersion)
    requires Sorted(rows)
    ensures Sorted(Insert(rows, v))
  {
    if rows != [] && v.versionNumber < rows[|rows| - 1].versionNumber {
      var last, init := rows[|rows| - 1], rows[..|rows| - 1];
      InsertKeeps(init, v);
      InsertPermutes(init, v);
      var r := Insert(init, v);
      forall k | 0 <= k < |r|
        ensures r[k].versionNumber <= last.versionNumber
      {
        assert r[k] in multiset(r);
        assert r[k] in multiset(init) || r[k] == v;
      }
    }
  }

  /** The sort orders by version number and only permutes. */
  lemma {:induction false} SortKeeps(rows: seq<UploadedVersion>)
    ensures Sorted(SortByNumber(rows))
    ensures multiset(SortByNumber(rows)) == multiset(rows)
    ensures |SortByNumber(rows)| == |rows|
  {
    if rows != [] {
      var last, init := rows[|rows| - 1], rows[..|rows| - 1];
      assert rows == init + [last];
      SortKeeps(init);
      InsertKeeps(SortByNumber(init), last);
      InsertPermutes(SortByNumber(init), last);
    }
    assert |multiset(SortByNumber(rows))| == |multiset(rows)|;
  }

  /** The rows that carry number `n`, in order. */
  function WithNumber(rows: seq<UploadedVersion>, n: int): seq<UploadedVersion> {
    if rows == [] then []
    else
      var last := rows[|rows| - 1];
      var init := WithNumber(rows[..|rows| - 1], n);
      if last.versionNumber == n then init + [last] else init
  }

  lemma WithNumberAppend(rows: seq<UploadedVersion>, v: UploadedVersion, n: int)
    ensures WithNumber(rows + [v], n) == if v.versionNumber == n then WithNumber(rows, n) + [v] else WithNumber(rows, n)
  {
    assert (rows + [v])[..|rows|] == rows;
  }

  lemma {:induction false} InsertStable(rows: seq<UploadedVersion>, v: UploadedVersion, n: int)
    ensures WithNumber(Insert(rows, v), n) == WithNumber(rows + [v], n)
  {
    if rows != [] && v.versionNumber < rows[|rows| - 1].versionNumber {
      var last, init := rows[|rows| - 1], rows[..|rows| - 1];
      assert rows == init + [last];
      InsertStable(init, v, n);
      WithNumberAppend(Insert(init, v), last, n);
      WithNumberAppend(init, v, n);
      WithNumberAppend(init, last, n);
      WithNumberAppend(rows, v, n);
    }
  }

  /** Rows with equal numbers stay in the order they had. */
  lemma {:induction false} SortStable(rows: seq<UploadedVersion>, n: int)
    ensures WithNumber(SortByNumber(rows), n) == WithNumber(rows, n)
  {
    if rows != [] {
      var last, init := rows[|rows| - 1], rows[..|rows| - 1];
      assert rows == init + [last];
      SortStable(init, n);
      InsertStable(SortByNumber(init), last, n);
      WithNumberAppend(SortByNumber(init), last, n);
      WithNumberAppend(init, last, n);
    }
  }

  lemma SameLast(rows: seq<UploadedVersion>, other: seq<UploadedVersion>)
    requires Ascending(rows) && Sorted(other) && multiset(rows) == multiset(other)
    requires |rows| == |other| > 0
    ensures rows[|rows| - 1] == other[|rows| - 1]
  {
    var n := |rows| - 1;
    assert rows[n] in multiset(other) && other[n] in multiset(rows);
    var i :| 0 <= i < |rows| && rows[i] == other[n];
    var j :| 0 <= j < |other| && other[j] == rows[n];
  }

  lemma {:induction false} SortedUnique(rows: seq<UploadedVersion>, other: seq<UploadedVersion>)
    requires Ascending(rows) && Sorted(other) && multiset(rows) == multiset(other) && |rows| == |other|
    ensures rows == other
    decreases |rows|
  {
    if rows != [] {
      SameLast(rows, other);
      WithoutLast(rows, other);
      SortedUnique(rows[..|rows| - 1], other[..|rows| - 1]);
      SameEnds(rows, other);
    }
  }

  lemma WithoutLast(rows: seq<UploadedVersion>, other: seq<UploadedVersion>)
    requires Ascending(rows) && Sorted(other) && multiset(rows) == multiset(other)
    requires |rows| == |other| > 0 && rows[|rows| - 1] == other[|rows| - 1]
    ensures Ascending(rows[..|rows| - 1]) && Sorted(other[..|rows| - 1])
    ensures multiset(rows[..|rows| - 1]) == multiset(other[..|rows| - 1])
  {
    MultisetInit(rows);
    MultisetInit(other);
  }

  lemma MultisetInit(rows: seq<UploadedVersion>)
    requires rows != []
    ensures multiset(rows[..|rows| - 1]) == multiset(rows) - multiset{rows[|rows| - 1]}
  {
    MultisetRemove(rows, |rows| - 1);
    assert rows[..|rows| - 1] + rows[|rows|..] == rows[..|rows| - 1];
  }

  lemma SameEnds(rows: seq<UploadedVersion>, other: seq<UploadedVersion>)
    requires |rows| == |other| > 0 && rows[..|rows| - 1] == other[..|rows| - 1] && rows[|rows| - 1] == other[|rows| - 1]
    ensures rows == other
  {
    assert rows == rows[..|rows| - 1] + [rows[|rows| - 1]];
    assert other == other[..|rows| - 1] + [other[|rows| - 1]];
  }

  /** Whatever order the database lists the rows in, sorting recovers the one ascending order. */
  lemma SortRecovers(rows: seq<UploadedVersion>, listed: seq<UploadedVersion>)
    requires Ascending(rows) && multiset(listed) == multiset(rows)
    ensures SortByNumber(listed) == rows
    ensures |listed| == |rows|
  {
    SortKeeps(listed);
    assert |rows| == |multiset(rows)| == |multiset(listed)| == |listed|;
    SortedUnique(rows, SortByNumber(listed));
  }

  /** The versions `GetVersionsThatShouldBeDeletedIfThisVersionUploaded` returns. */
  function Doomed(existing: seq<UploadedVersion>, maxBackups: int): seq<UploadedVersion>
    requires maxBackups >= 1
  {
    if |existing| < maxBackups then []
    else
      SortKeeps(existing);
      SortByNumber(existing)[..|existing| - maxBackups + 1]
  }

  lemma DoomedIsPrefix(existing: seq<UploadedVersion>, maxBackups: int)
    requires 1 <= maxBackups <= |existing|
    ensures |SortByNumber(existing)| == |existing|
            && Doomed(existing, maxBackups) == SortByNumber(existing)[..|existing| - maxBackups + 1]
  {
    SortKeeps(existing);
  }

  /** The versions that survive the rotation. */
  function Kept(existing: seq<UploadedVersion>, maxBackups: int): seq<UploadedVersion>
    requires maxBackups >= 1
  {
    SortKeeps(existing);
    if |existing| < maxBackups then SortByNumber(existing)
    else SortByNumber(existing)[|existing| - maxBackups + 1..]
  }

  /** FIFO: the plan splits the versions into the oldest and the rest, and leaves room for exactly one more. */
  lemma FifoRotation(existing: seq<UploadedVersion>, maxBackups: int)
    requires maxBackups >= 1
    requires forall i, j :: 0 <= i < j < |existing| ==> existing[i].versionNumber != existing[j].versionNumber
    ensures multiset(Doomed(existing, maxBackups)) + multiset(Kept(existing, maxBackups)) == multiset(existing)
    ensures forall d, k :: d in Doomed(existing, maxBackups) && k in Kept(existing, maxBackups) ==>
            d.versionNumber < k.versionNumber
    ensures |Kept(existing, maxBackups)| + 1 == if |existing| + 1 < maxBackups then |existing| + 1 else maxBackups
  {
    SortKeeps(existing);
    SortDistinct(existing);
    CutAt(SortByNumber(existing), if |existing| < maxBackups then 0 else |existing| - maxBackups + 1);
    assert SortByNumber(existing)[..0] == [] && SortByNumber(existing)[0..] == SortByNumber(existing);
  }

  lemma CutAt(rows: seq<UploadedVersion>, k: nat)
    requires Ascending(rows) && k <= |rows|
    ensures multiset(rows[..k]) + multiset(rows[k..]) == multiset(rows)
    ensures forall d, e :: d in rows[..k] && e in rows[k..] ==> d.versionNumber < e.versionNumber
  {
    assert rows == rows[..k] + rows[k..];
  }

  lemma SortDistinct(existing: seq<UploadedVersion>)
    requires forall i, j :: 0 <= i < j < |existing| ==> existing[i].versionNumber != existing[j].versionNumber
    ensures Ascending(SortByNumber(existing))
  {
    SortKeeps(existing);
    var s := SortByNumber(existing);
    forall i, j | 0 <= i < j < |s|
      ensures s[i].versionNumber < s[j].versionNumber
    {
      if s[i].versionNumber == s[j].versionNumber {
        NumbersOnce(existing, s[i].versionNumber);
        SortStable(existing, s[i].versionNumber);
        NumbersTwice(s, i, j);
        assert false;
      }
    }
  }

  lemma {:induction false} NumbersOnce(rows: seq<UploadedVersion>, n: int)
    requires forall i, j :: 0 <= i < j < |rows| ==> rows[i].versionNumber != rows[j].versionNumber
    ensures |WithNumber(rows, n)| <= 1
    ensures |WithNumber(rows, n)| == 0 <==> forall i :: 0 <= i < |rows| ==> rows[i].versionNumber != n
  {
    if rows != [] {
      NumbersOnce(rows[..|rows| - 1], n);
    }
  }

  lemma {:induction false} NumbersTwice(rows: seq<UploadedVersion>, i: nat, j: nat)
    requires i < j < |rows| && rows[i].versionNumber == rows[j].versionNumber
    ensures |WithNumber(rows, rows[i].versionNumber)| >= 2
  {
    var n := rows[i].versionNumber;
    if j < |rows| - 1 {
      NumbersTwice(rows[..|rows| - 1], i, j);
    } else {
      NumbersSome(rows[..|rows| - 1], i);
    }
  }

  lemma {:induction false} NumbersSome(rows: seq<UploadedVersion>, i: nat)
    requires i < |rows|
    ensures |WithNumber(rows, rows[i].versionNumber)| >= 1
  {
    if i < |rows| - 1 {
      NumbersSome(rows[..|rows| - 1], i);
    }
  }

  lemma {:induction false} InsertAt(rows: seq<UploadedVersion>, v: UploadedVersion, j: nat)
    requires j <= |rows|
    requires forall k :: j <= k < |rows| ==> v.versionNumber < rows[k].versionNumber
    requires j == 0 || rows[j - 1].versionNumber <= v.versionNumber
    ensures Insert(rows, v) == rows[..j] + [v] + rows[j..]
    decreases |rows|
  {
    if j < |rows| {
      var init := rows[..|rows| - 1];
      InsertAt(init, v, j);
      assert init[..j] == rows[..j] && init[j..] + [rows[|rows| - 1]] == rows[j..];
    }
  }

  /** Moves `a[i]` down into the sorted part before it. */
  method InsertInPlace(a: array<UploadedVersion>, i: nat)
    requires i < a.Length
    modifies a
    ensures a[..i + 1] == Insert(old(a[..i]), old(a[i]))
    ensures forall k :: i < k < a.Length ==> a[k] == old(a[k])
  {
    var j := i;
    ghost var was := a[..];
    while j > 0 && a[j].versionNumber < a[j - 1].versionNumber
      invariant 0 <= j <= i && a[j] == was[i]
      invariant forall k :: 0 <= k < a.Length && (k < j || i < k) ==> a[k] == was[k]
      invariant forall k :: j < k <= i ==> a[k] == was[k - 1]
      invariant forall k :: j <= k < i ==> was[i].versionNumber < was[k].versionNumber
    {
      a[j], a[j - 1] := a[j - 1], a[j];
      j := j - 1;
    }
    InsertAt(was[..i], was[i], j);
    assert a[..i + 1] == was[..i][..j] + [was[i]] + was[..i][j..];
  }

  /** `sort.SliceStable` by version number, on the caller's own slice. */
  method SortInPlace(a: array<UploadedVersion>)
    modifies a
    ensures a[..] == SortByNumber(old(a[..]))
  {
    var i := 0;
    ghost var was := a[..];
    while i < a.Length
      invariant 0 <= i <= a.Length
      invariant a[..i] == SortByNumber(was[..i])
      invariant forall k :: i <= k < a.Length ==> a[k] == was[k]
    {
      assert was[..i + 1][..i] == was[..i];
      InsertInPlace(a, i);
      i := i + 1;
    }
    assert a[..] == a[..i] && was[..i] == was;
  }

  /**
   * `GetVersionsThatShouldBeDeletedIfThisVersionUploaded`; `MaxBackupsCount >= 1` keeps its slice within the versions.
   */
  method VersionsToDelete(existing: array<UploadedVersion>, maxBackups: int) returns (doomed: seq<UploadedVersion>)
    requires maxBackups >= 1
    modifies existing
    ensures doomed == Doomed(old(existing[..]), maxBackups)
    ensures multiset(existing[..]) == multiset(old(existing[..]))
  {
    if existing.Length < maxBackups {
      return [];
    }
    ghost var was := existing[..];
    SortKeeps(was);
    SortInPlace(existing);
    var toDelete := existing.Length - maxBackups;
    toDelete := toDelete + 1;
    doomed := existing[..toDelete];
    assert doomed == existing[..][..toDelete];
    DoomedIsPrefix(was, maxBackups);
  }
}

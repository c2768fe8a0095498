/** Uploaded versions and the `uploaded_versions` table (pkg/storage/entity.go, pkg/storage/repository.go). */
module Versions {

  newtype Byte = x: int | 0 <= x < 256

  /** A `uuid.New()` value; only its identity matters. */
  type Uuid = nat

  /** One row of the registry. The auditing columns play no part in any decision and are not kept. */
  datatype UploadedVersion = UploadedVersion(
    id: Uuid,
    collectionId: string,
    versionNumber: int,
    filename: string,
    filesize: int)

  /** The rows of one collection, in the order of the table: `WHERE collection_id = c`. */
  function Rows(table: seq<UploadedVersion>, c: string): seq<UploadedVersion> {
    if table == [] then []
    else
      var last := table[|table| - 1];
      var init := Rows(table[..|table| - 1], c);
      if last.collectionId == c then init + [last] else init
  }

  /** `DELETE ... WHERE id = id`. */
  function Without(table: seq<UploadedVersion>, id: Uuid): seq<UploadedVersion> {
    if table == [] then []
    else
      var last := table[|table| - 1];
      var init := Without(table[..|table| - 1], id);
      if last.id != id then init + [last] else init
  }

  lemma {:induction false} RowsMember(table: seq<UploadedVersion>, c: string, v: UploadedVersion)
    ensures v in Rows(table, c) <==> v in table && v.collectionId == c
  {
    if table != [] {
      RowsMember(table[..|table| - 1], c, v);
      assert table == table[..|table| - 1] + [table[|table| - 1]];
    }
  }

  lemma {:induction false} WithoutMember(table: seq<UploadedVersion>, id: Uuid, v: UploadedVersion)
    ensures v in Without(table, id) <==> v in table && v.id != id
  {
    if table != [] {
      WithoutMember(table[..|table| - 1], id, v);
      assert table == table[..|table| - 1] + [table[|table| - 1]];
    }
  }

  /** `SELECT version_number ... ORDER BY version_number DESC LIMIT 1`, which leaves 0 when there is no row. */
  function HighestNumber(rows: seq<UploadedVersion>): (n: int)
    ensures forall v :: v in rows ==> v.versionNumber <= n
    ensures if rows == [] then n == 0 else exists v :: v in rows && v.versionNumber == n
  {
    if rows == [] then 0
    else
      var last := rows[|rows| - 1];
      var rest := rows[..|rows| - 1];
      assert rows == rest + [last];
      if rest == [] || HighestNumber(rest) < last.versionNumber then
        assert last in rows;
        last.versionNumber
      else HighestNumber(rest)
  }

  /** Version numbers strictly increase along the sequence. */
  ghost predicate Ascending(rows: seq<UploadedVersion>) {
    forall i, j :: 0 <= i < j < |rows| ==> rows[i].versionNumber < rows[j].versionNumber
  }

  lemma RowsOfAppend(table: seq<UploadedVersion>, v: UploadedVersion, c: string)
    ensures Rows(table + [v], c) == if v.collectionId == c then Rows(table, c) + [v] else Rows(table, c)
  {
    assert (table + [v])[..|table|] == table;
  }

  lemma WithoutAppend(table: seq<UploadedVersion>, v: UploadedVersion, id: Uuid)
    ensures Without(table + [v], id) == if v.id != id then Without(table, id) + [v] else Without(table, id)
  {
    assert (table + [v])[..|table|] == table;
  }

  lemma {:induction false} RowsOfWithout(table: seq<UploadedVersion>, id: Uuid, c: string)
    ensures Rows(Without(table, id), c) == Without(Rows(table, c), id)
  {
    if table != [] {
      var last, init := table[|table| - 1], table[..|table| - 1];
      assert table == init + [last];
      RowsOfWithout(init, id, c);
      WithoutAppend(init, last, id);
      RowsOfAppend(init, last, c);
      RowsOfAppend(Without(init, id), last, c);
      WithoutAppend(Rows(init, c), last, id);
    }
  }

  lemma {:induction false} WithoutAbsent(rows: seq<UploadedVersion>, id: Uuid)
    requires forall v :: v in rows ==> v.id != id
    ensures Without(rows, id) == rows
  {
    if rows != [] {
      WithoutAbsent(rows[..|rows| - 1], id);
      assert rows[|rows| - 1] in rows;
    }
  }

  lemma {:induction false} WithoutConcat(a: seq<UploadedVersion>, b: seq<UploadedVersion>, id: Uuid)
    ensures Without(a + b, id) == Without(a, id) + Without(b, id)
  {
    if b == [] {
      assert a + b == a;
    } else {
      var init := b[..|b| - 1];
      assert (a + b)[..|a + b| - 1] == a + init;
      WithoutConcat(a, init, id);
    }
  }

  /** Deleting the first of a list of rows with distinct ids leaves exactly the others, in order. */
  lemma WithoutFirst(rows: seq<UploadedVersion>)
    requires rows != []
    requires forall i :: 0 < i < |rows| ==> rows[i].id != rows[0].id
    ensures Without(rows, rows[0].id) == rows[1..]
  {
    assert rows == [rows[0]] + rows[1..];
    WithoutConcat([rows[0]], rows[1..], rows[0].id);
    WithoutAbsent(rows[1..], rows[0].id);
  }

  lemma WithoutAt(rows: seq<UploadedVersion>, j: nat)
    requires j < |rows| && forall i :: 0 <= i < |rows| && i != j ==> rows[i].id != rows[j].id
    ensures Without(rows, rows[j].id) == rows[..j] + rows[j + 1..]
  {
    assert rows == rows[..j] + rows[j..];
    WithoutConcat(rows[..j], rows[j..], rows[j].id);
    WithoutAbsent(rows[..j], rows[j].id);
    WithoutFirst(rows[j..]);
  }

  function Ids(rows: seq<UploadedVersion>): set<Uuid> {
    set v | v in rows :: v.id
  }

  ghost predicate IdsDistinct(rows: seq<UploadedVersion>) {
    forall i, j :: 0 <= i < j < |rows| ==> rows[i].id != rows[j].id
  }

  /** The rows whose id is not in `gone`, in order. */
  function Survivors(rows: seq<UploadedVersion>, gone: set<Uuid>): seq<UploadedVersion> {
    if rows == [] then []
    else
      var last := rows[|rows| - 1];
      var init := Survivors(rows[..|rows| - 1], gone);
      if last.id !in gone then init + [last] else init
  }

  lemma {:induction false} SurvivorsMember(rows: seq<UploadedVersion>, gone: set<Uuid>, v: UploadedVersion)
    ensures v in Survivors(rows, gone) <==> v in rows && v.id !in gone
  {
    if rows != [] {
      SurvivorsMember(rows[..|rows| - 1], gone, v);
      assert rows == rows[..|rows| - 1] + [rows[|rows| - 1]];
    }
  }

  lemma {:induction false} SurvivorsConcat(a: seq<UploadedVersion>, b: seq<UploadedVersion>, gone: set<Uuid>)
    ensures Survivors(a + b, gone) == Survivors(a, gone) + Survivors(b, gone)
  {
    if b == [] {
      assert a + b == a;
    } else {
      assert (a + b)[..|a + b| - 1] == a + b[..|b| - 1];
      SurvivorsConcat(a, b[..|b| - 1], gone);
    }
  }

  /** Only the ids of the rows themselves matter. */
  lemma {:induction false} SurvivorsSame(rows: seq<UploadedVersion>, gone: set<Uuid>, other: set<Uuid>)
    requires forall v :: v in rows ==> (v.id in gone <==> v.id in other)
    ensures Survivors(rows, gone) == Survivors(rows, other)
  {
    if rows != [] {
      assert rows[|rows| - 1] in rows;
      SurvivorsSame(rows[..|rows| - 1], gone, other);
    }
  }

  lemma {:induction false} SurvivorsAll(rows: seq<UploadedVersion>, gone: set<Uuid>)
    requires forall v :: v in rows ==> v.id !in gone
    ensures Survivors(rows, gone) == rows
  {
    if rows != [] {
      assert rows[|rows| - 1] in rows;
      SurvivorsAll(rows[..|rows| - 1], gone);
    }
  }

  lemma {:induction false} SurvivorsNone(rows: seq<UploadedVersion>, gone: set<Uuid>)
    requires forall v :: v in rows ==> v.id in gone
    ensures Survivors(rows, gone) == []
  {
    if rows != [] {
      assert rows[|rows| - 1] in rows;
      SurvivorsNone(rows[..|rows| - 1], gone);
    }
  }

  lemma {:induction false} SurvivorsShrink(rows: seq<UploadedVersion>, gone: set<Uuid>, more: set<Uuid>)
    requires gone <= more
    ensures |Survivors(rows, more)| <= |Survivors(rows, gone)| <= |rows|
  {
    if rows != [] {
      SurvivorsShrink(rows[..|rows| - 1], gone, more);
    }
  }

  /** Seen from the survivors it makes no difference whether a row is deleted or only counted out. */
  lemma {:induction false} SurvivorsOfWithout(rows: seq<UploadedVersion>, id: Uuid, gone: set<Uuid>)
    ensures Survivors(Without(rows, id), gone) == Survivors(rows, gone + {id})
  {
    if rows != [] {
      var init, last := rows[..|rows| - 1], rows[|rows| - 1];
      SurvivorsOfWithout(init, id, gone);
      SurvivorsConcat(Without(init, id), [last], gone);
    }
  }

  /** The sum of a weight over a list of versions. */
  function Sum(w: UploadedVersion -> int, rows: seq<UploadedVersion>): int {
    if rows == [] then 0 else Sum(w, rows[..|rows| - 1]) + w(rows[|rows| - 1])
  }

  lemma {:induction false} SumConcat(w: UploadedVersion -> int, a: seq<UploadedVersion>, b: seq<UploadedVersion>)
    ensures Sum(w, a + b) == Sum(w, a) + Sum(w, b)
  {
    if b == [] {
      assert a + b == a;
    } else {
      assert (a + b)[..|a + b| - 1] == a + b[..|b| - 1];
      SumConcat(w, a, b[..|b| - 1]);
    }
  }

  lemma MultisetRemove(a: seq<UploadedVersion>, i: nat)
    requires i < |a|
    ensures multiset(a[..i] + a[i + 1..]) == multiset(a) - multiset{a[i]}
  {
    assert a == a[..i] + ([a[i]] + a[i + 1..]);
  }

  lemma SumRemove(w: UploadedVersion -> int, a: seq<UploadedVersion>, i: nat)
    requires i < |a|
    ensures Sum(w, a) == Sum(w, a[..i] + a[i + 1..]) + w(a[i])
  {
    assert a == a[..i + 1] + a[i + 1..];
    assert a[..i + 1][..i] == a[..i];
    SumConcat(w, a[..i + 1], a[i + 1..]);
    SumConcat(w, a[..i], a[i + 1..]);
  }

  /** A sum does not depend on the order in which the database lists the rows. */
  lemma {:induction false} SumPermutation(w: UploadedVersion -> int, a: seq<UploadedVersion>, b: seq<UploadedVersion>)
    requires multiset(a) == multiset(b)
    ensures Sum(w, a) == Sum(w, b)
    decreases |b|
  {
    if b == [] {
      assert |multiset(a)| == 0;
    } else {
      var x, init := b[|b| - 1], b[..|b| - 1];
      assert b == init + [x];
      assert x in multiset(a);
      var i :| 0 <= i < |a| && a[i] == x;
      var rest := a[..i] + a[i + 1..];
      MultisetRemove(a, i);
      MultisetRemove(b, |b| - 1);
      assert b[..|b| - 1] + b[|b|..] == init;
      SumPermutation(w, rest, init);
      SumRemove(w, a, i);
    }
  }

  lemma {:induction false} SumMonotone(w: UploadedVersion -> int, u: UploadedVersion -> int, rows: seq<UploadedVersion>)
    requires forall v :: v in rows ==> w(v) <= u(v)
    ensures Sum(w, rows) <= Sum(u, rows)
  {
    if rows != [] {
      assert rows[|rows| - 1] in rows;
      SumMonotone(w, u, rows[..|rows| - 1]);
    }
  }
}

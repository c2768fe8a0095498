/** File names and storage paths (pkg/collections/model.go, pkg/storage/entity.go). */
module Naming {
  import opened Substrings

  const VERSION_MARK: string := "${version}"

  function Digit(d: nat): (c: char)
    requires d < 10
  {
    "0123456789"[d]
  }

  function DecimalNat(n: nat): (s: string)
    ensures s != [] && s[0] != '-'
  {
    if n < 10 then [Digit(n)] else DecimalNat(n / 10) + [Digit(n % 10)]
  }

  /** `fmt.Sprintf("%v", n)`. */
  function Decimal(n: int): string {
    if n < 0 then "-" + DecimalNat(-n) else DecimalNat(n)
  }

  /** `strings.Index`, looking at position `from` and after: the first occurrence, or -1. */
  function IndexFrom(s: string, needle: string, from: nat): (i: int)
    requires from <= |s|
    ensures i == -1 ==> forall k: nat :: from <= k ==> !OccursAt(s, needle, k)
    ensures i != -1 ==> from <= i && OccursAt(s, needle, i) && forall k: nat :: from <= k < i ==>
            !OccursAt(s, needle, k)
    decreases |s| - from
  {
    if OccursAt(s, needle, from) then from
    else if from == |s| then -1
    else IndexFrom(s, needle, from + 1)
  }

  /** `strings.Replace(s, old, new, 1)`. */
  function ReplaceFirst(s: string, needle: string, replacement: string): string {
    var i := IndexFrom(s, needle, 0);
    if i == -1 then s else s[..i] + replacement + s[i + |needle|..]
  }

  /** `GenerateNextVersionFilename`. */
  function Filename(template: string, version: int): string {
    ReplaceFirst(template, VERSION_MARK, Decimal(version))
  }

  /** `GetTargetPath`. */
  function TargetPath(collectionId: string, filename: string): string {
    collectionId + "/" + filename
  }

  lemma {:induction false} DecimalNatInjective(m: nat, n: nat)
    requires DecimalNat(m) == DecimalNat(n)
    ensures m == n
  {
    var s, t := DecimalNat(m), DecimalNat(n);
    assert s[|s| - 1] == Digit(m % 10) && t[|t| - 1] == Digit(n % 10);
    if m >= 10 && n >= 10 {
      assert DecimalNat(m / 10) == s[..|s| - 1] == t[..|t| - 1] == DecimalNat(n / 10);
      DecimalNatInjective(m / 10, n / 10);
    }
  }

  lemma DecimalInjective(m: int, n: int)
    requires Decimal(m) == Decimal(n)
    ensures m == n
  {
    if m < 0 && n < 0 {
      assert Decimal(m)[1..] == DecimalNat(-m) && Decimal(n)[1..] == DecimalNat(-n);
      DecimalNatInjective(-m, -n);
    } else if m >= 0 && n >= 0 {
      DecimalNatInjective(m, n);
    } else {
      assert false;
    }
  }

  /** The number that a string of digits spells in base ten. */
  function Spelled(digits: string): int {
    if digits == [] then 0
    else 10 * Spelled(digits[..|digits| - 1]) + (digits[|digits| - 1] as int - '0' as int)
  }

  /** Digits only, and no leading zero. */
  predicate IsNumeral(digits: string) {
    && digits != [] && (forall c :: c in digits ==> '0' <= c <= '9')
    && (|digits| > 1 ==> digits[0] != '0')
  }

  lemma DigitValue(d: nat)
    requires d < 10
    ensures '0' <= Digit(d) <= '9' && Digit(d) as int - '0' as int == d
  {
  }

  lemma {:induction false} DecimalNatSpells(n: nat)
    ensures IsNumeral(DecimalNat(n)) && Spelled(DecimalNat(n)) == n && (n > 0 ==> DecimalNat(n)[0] != '0')
  {
    DigitValue(n % 10);
    if n < 10 {
      assert DecimalNat(n)[..0] == [];
    } else {
      DecimalNatSpells(n / 10);
      var s := DecimalNat(n);
      assert s[..|s| - 1] == DecimalNat(n / 10);
    }
  }

  /** The rendering is the usual decimal one: read in base ten, its digits give the number back. */
  lemma DecimalSpells(n: int)
    ensures if n >= 0 then IsNumeral(Decimal(n)) && Spelled(Decimal(n)) == n
            else Decimal(n)[0] == '-' && IsNumeral(Decimal(n)[1..]) && Spelled(Decimal(n)[1..]) == -n
  {
    DecimalNatSpells(if n >= 0 then n else -n);
    if n < 0 { assert Decimal(n)[1..] == DecimalNat(-n); }
  }

  /** The number takes the place of the first mark, and everything around it stays. */
  lemma FilenameReplacesMark(before: string, after: string, n: int)
    requires forall k: nat :: k < |before| ==> !OccursAt(before + "${version}" + after, "${version}", k)
    ensures Filename(before + "${version}" + after, n) == before + Decimal(n) + after
  {
    var template := before + VERSION_MARK + after;
    assert template[|before|..|before| + |VERSION_MARK|] == VERSION_MARK;
    assert OccursAt(template, VERSION_MARK, |before|);
    assert IndexFrom(template, VERSION_MARK, 0) == |before|;
    assert template[..|before|] == before && template[|before| + |VERSION_MARK|..] == after;
  }

  /** A template without the mark is the name of every version. */
  lemma FilenameWithoutMark(template: string, n: int)
    requires !Contains(template, "${version}")
    ensures Filename(template, n) == template
  {
  }

  /** A template names every version differently exactly when it mentions the version. */
  lemma FilenameInjectiveIff(template: string)
    ensures (forall m, n :: Filename(template, m) == Filename(template, n) ==> m == n)
       <==> Contains(template, VERSION_MARK)
  {
    var i := IndexFrom(template, VERSION_MARK, 0);
    if i == -1 {
      assert Filename(template, 1) == Filename(template, 2);
    } else {
      forall m, n | Filename(template, m) == Filename(template, n)
        ensures m == n
      {
        FilenameInjective(template, m, n);
      }
    }
  }

  lemma FilenameInjective(template: string, m: int, n: int)
    requires Contains(template, VERSION_MARK)
    requires Filename(template, m) == Filename(template, n)
    ensures m == n
  {
    var i := IndexFrom(template, VERSION_MARK, 0);
    var tail := template[i + |VERSION_MARK|..];
    var a, b := Filename(template, m), Filename(template, n);
    assert a[i..|a| - |tail|] == Decimal(m) && b[i..|b| - |tail|] == Decimal(n);
    DecimalInjective(m, n);
  }

  /** A path is the id, a slash and the file name, each in full. */
  lemma PathParts(c: string, f: string)
    ensures var p := TargetPath(c, f);
            |p| == |c| + 1 + |f| && p[..|c|] == c && p[|c|] == '/' && p[|c| + 1..] == f
  {
    assert TargetPath(c, f)[|c| + 1..] == f;
  }

  /** Slash-free collection ids can be read back from a path, so collections never share one. */
  lemma PathInjective(c: string, f: string, d: string, g: string)
    requires '/' !in c && '/' !in d
    requires TargetPath(c, f) == TargetPath(d, g)
    ensures c == d && f == g
  {
    var p := TargetPath(c, f);
    assert p[|c|] == '/' && p[|d|] == '/';
    if |c| < |d| {
      assert false;
    } else if |d| < |c| {
      assert false;
    }
    assert c == p[..|c|] == d;
    assert f == p[|c| + 1..] == g;
  }

  /** Without that restriction two collections can write to one path. */
  lemma SlashInIdCollides(c: string, d: string, f: string)
    ensures TargetPath(c + "/" + d, f) == TargetPath(c, d + "/" + f)
  {
    assert TargetPath(c + "/" + d, f) == c + ("/" + d + "/" + f);
  }

  /** Exactly which collections can come to share a path: those of which one's id is a directory above the other's. */
  lemma PathsCollideIff(c: string, d: string)
    ensures (exists f, g :: TargetPath(c, f) == TargetPath(d, g)) <==> c == d || c + "/" <= d || d + "/" <= c
  {
    if c == d {
      assert TargetPath(c, []) == TargetPath(d, []);
    } else if c + "/" <= d {
      DirectoryCollides(c, d);
    } else if d + "/" <= c {
      DirectoryCollides(d, c);
    } else {
      forall f, g
        ensures TargetPath(c, f) != TargetPath(d, g)
      {
        if TargetPath(c, f) == TargetPath(d, g) { CollisionNests(c, f, d, g); }
      }
    }
  }

  lemma DirectoryCollides(c: string, d: string)
    requires c + "/" <= d
    ensures TargetPath(d, []) == TargetPath(c, d[|c| + 1..] + "/")
  {
    var rest := d[|c| + 1..];
    assert d == c + "/" + rest;
    SlashInIdCollides(c, rest, []);
    assert rest + "/" + [] == rest + "/";
  }

  lemma CollisionNests(c: string, f: string, d: string, g: string)
    requires TargetPath(c, f) == TargetPath(d, g)
    ensures c == d || c + "/" <= d || d + "/" <= c
  {
    var p := TargetPath(c, f);
    assert p[..|c|] == c && p[|c|] == '/' && p[..|d|] == d && p[|d|] == '/';
    if |c| < |d| {
      assert d[..|c| + 1] == p[..|c| + 1] == c + "/";
    } else if |d| < |c| {
      assert c[..|d| + 1] == p[..|d| + 1] == d + "/";
    }
  }
}

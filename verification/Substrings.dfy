/** Searching in byte and character strings (`bytes.Contains`, `strings.Contains`). */
module Substrings {

  predicate OccursAt<T(==)>(s: seq<T>, needle: seq<T>, i: nat) {
    i + |needle| <= |s| && s[i..i + |needle|] == needle
  }

  predicate Contains<T(==)>(s: seq<T>, needle: seq<T>) {
    exists i | 0 <= i <= |s| :: OccursAt(s, needle, i)
  }

  /** An occurrence agrees with the needle in every element. */
  lemma OccursElement<T>(s: seq<T>, needle: seq<T>, i: nat, k: nat)
    requires k < |needle|
    ensures OccursAt(s, needle, i) ==> s[i + k] == needle[k]
  {
    assert OccursAt(s, needle, i) ==> s[i..i + |needle|][k] == s[i + k];
  }

  lemma StartsWith<T>(s: seq<T>, needle: seq<T>)
    requires |needle| <= |s| && forall k :: 0 <= k < |needle| ==> s[k] == needle[k]
    ensures Contains(s, needle)
  {
    assert s[0..|needle|] == needle;
    assert OccursAt(s, needle, 0);
  }

}

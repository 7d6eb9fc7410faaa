/** The two pieces of PHP string semantics the installer's version check rests on:
    the prefix relation it means, and PHP 8's `strpos`, the function it calls to get it. */
module PhpStrings {

  /** PHP's `int|false` results: `None` stands for `false`. */
  datatype Option<T> = None | Some(value: T)

  /** `s` begins with `prefix` (every string begins with the empty string). */
  predicate StartsWith(s: string, prefix: string) {
    |prefix| <= |s| && s[..|prefix|] == prefix
  }

  /** `needle` occurs in `haystack` starting at index `i`. */
  predicate OccursAt(haystack: string, needle: string, i: nat) {
    i + |needle| <= |haystack| && haystack[i..i + |needle|] == needle
  }

  /** PHP 8 `strpos($haystack, $needle)`: the index of the first occurrence of
      `needle`, or `false` when there is none. Since PHP 8 an empty needle is found at 0. */
  function StrPos(haystack: string, needle: string): (r: Option<nat>)
    ensures r.Some? ==> OccursAt(haystack, needle, r.value)
    ensures r.Some? ==> forall j :: 0 <= j < r.value ==> !OccursAt(haystack, needle, j)
    ensures r.None? <==> forall j: nat :: !OccursAt(haystack, needle, j)
  {
    StrPosFrom(haystack, needle, 0)
  }

  /** The search of `StrPos` from index `i` onwards. */
  function StrPosFrom(haystack: string, needle: string, i: nat): (r: Option<nat>)
    requires i <= |haystack|
    decreases |haystack| - i
    ensures r.Some? ==> i <= r.value && OccursAt(haystack, needle, r.value)
    ensures r.Some? ==> forall j :: i <= j < r.value ==> !OccursAt(haystack, needle, j)
    ensures r.None? ==> forall j: nat :: i <= j ==> !OccursAt(haystack, needle, j)
  {
    if OccursAt(haystack, needle, i) then Some(i)
    else if |haystack| <= i + |needle| then None
    else StrPosFrom(haystack, needle, i + 1)
  }

  /** `strpos($s, $prefix) === 0` is exactly the prefix test. */
  lemma StrPosZeroIffStartsWith(s: string, prefix: string)
    ensures StrPos(s, prefix) == Some(0) <==> StartsWith(s, prefix)
  {
  }

  /** Every string starts with itself. */
  lemma StartsWithReflexive(s: string)
    ensures StartsWith(s, s)
  {
  }

  /** Every string starts with the empty string, so `strpos($s, '') === 0` holds for every `$s`. */
  lemma EmptyPrefixAlwaysMatches(s: string)
    ensures StartsWith(s, "")
    ensures StrPos(s, "") == Some(0)
  {
  }

  /** The prefix test is textual, not a version comparison: a longer build string satisfies
      a shorter requirement, an unrelated version does not, and "1.10" satisfies "1.1"
      as "9.11" satisfies "9.1". */
  lemma PrefixQuirks()
    ensures StartsWith("98.0.12.34", "98.0")
    ensures !StartsWith("97.0.1", "98.0")
    ensures StartsWith("1.10", "1.1")
    ensures StartsWith("9.11", "9.1")
  {
    assert "97.0.1"[..4][1] == '7';
  }
}

/**
 * The two JavaScript string operations the search-query rewriting relies on:
 * `s.includes(p)` (a case-sensitive substring test) and `s.replace(p, replacement)`
 * with a string pattern, which replaces only the first occurrence of `p`. The
 * replacement is inserted literally: this is `replace` for a replacement that
 * contains no `$` patterns (`$&`, `$$`, `` $` ``, `$'`), as is every full state
 * name the rewriting inserts.
 */
module Strings {
  import opened Wrappers

  /** `p` occurs in `s` starting at index `i`. */
  predicate OccursAt(s: string, p: string, i: int) {
    0 <= i && i + |p| <= |s| && s[i..i + |p|] == p
  }

  /** `i` is the first index at which `p` occurs in `s`. */
  predicate FirstOccurrence(s: string, p: string, i: int) {
    OccursAt(s, p, i) && forall j :: 0 <= j < i ==> !OccursAt(s, p, j)
  }

  /** JavaScript's `s.includes(p)`. */
  predicate Includes(s: string, p: string) {
    exists i | 0 <= i <= |s| - |p| :: OccursAt(s, p, i)
  }

  /** The first index at or after `k` where `p` occurs in `s`, if any. */
  function IndexFrom(s: string, p: string, k: nat): (r: Option<nat>)
    requires k <= |s|
    decreases |s| - k
    ensures r.Some? ==> k <= r.value && OccursAt(s, p, r.value)
    ensures r.Some? ==> forall j :: k <= j < r.value ==> !OccursAt(s, p, j)
    ensures r.None? ==> forall j :: k <= j ==> !OccursAt(s, p, j)
  {
    if k + |p| > |s| then None
    else if s[k..k + |p|] == p then Some(k)
    else IndexFrom(s, p, k + 1)
  }

  /** The search inside `s.replace(p, ...)`: the first index where `p` occurs, with `None` for no match. */
  function IndexOf(s: string, p: string): (r: Option<nat>)
    ensures r.Some? <==> Includes(s, p)
    ensures r.Some? ==> FirstOccurrence(s, p, r.value)
  {
    IndexFrom(s, p, 0)
  }

  /** JavaScript's `s.replace(p, replacement)` for a string pattern `p` and a replacement without `$` patterns. */
  function ReplaceFirst(s: string, p: string, replacement: string): (r: string)
    ensures !Includes(s, p) ==> r == s
    ensures Includes(s, p) ==> |r| == |s| - |p| + |replacement|
    ensures Includes(s, p) ==>
      exists i :: FirstOccurrence(s, p, i) && r == s[..i] + replacement + s[i + |p|..]
  {
    match IndexOf(s, p)
    case None => s
    case Some(i) =>
      assert FirstOccurrence(s, p, i);
      s[..i] + replacement + s[i + |p|..]
  }

}

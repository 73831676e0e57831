/** Substring tests used by the console (`String.prototype.includes`, the first match of a literal). */
module Strings {
  import opened JsValues

  /** Concatenation regroups freely. */
  lemma ConcatAssociative<T>(a: seq<T>, b: seq<T>, c: seq<T>)
    ensures a + (b + c) == (a + b) + c
  {
  }

  /** `p` occurs in `s` starting at index `i`. */
  predicate OccursAt(s: string, p: string, i: nat)
  {
    i + |p| <= |s| && s[i..i + |p|] == p
  }

  /** `s.includes(p)`: case-sensitive substring test. */
  predicate Contains(s: string, p: string)
  {
    exists i :: 0 <= i <= |s| - |p| && OccursAt(s, p, i)
  }

  /** The index of the first occurrence of `p` in `s` at or after `from`. */
  function IndexFrom(s: string, p: string, from: nat): (r: Option<nat>)
    requires from <= |s|
    ensures r.Some? ==> from <= r.value && OccursAt(s, p, r.value)
    ensures r.Some? ==> forall j :: from <= j < r.value ==> !OccursAt(s, p, j)
    ensures r.None? ==> forall j :: from <= j <= |s| ==> !OccursAt(s, p, j)
    decreases |s| - from
  {
    if OccursAt(s, p, from) then Some(from)
    else if from == |s| then None
    else IndexFrom(s, p, from + 1)
  }

  /** `s.indexOf(p)`, with `None` for -1: the leftmost occurrence. */
  function IndexOf(s: string, p: string): (r: Option<nat>)
    ensures r.None? <==> !Contains(s, p)
    ensures r.Some? ==> OccursAt(s, p, r.value) && forall j :: 0 <= j < r.value ==> !OccursAt(s, p, j)
  {
    var r := IndexFrom(s, p, 0);
    if r.Some? then r
    else
      assert forall j :: 0 <= j <= |s| - |p| ==> !OccursAt(s, p, j);
      r
  }

  /** An occurrence inside `s` is an occurrence at the shifted index inside `q + s`. */
  lemma OccursAtShift(q: string, s: string, p: string, i: nat)
    ensures OccursAt(q + s, p, |q| + i) <==> OccursAt(s, p, i)
  {
    if |q| + i + |p| <= |q + s| {
      assert (q + s)[|q| + i..|q| + i + |p|] == s[i..i + |p|];
    }
  }

  /** An occurrence that ends inside `s` is also an occurrence inside `s + t`. */
  lemma OccursAtExtend(s: string, t: string, p: string, i: nat)
    requires i + |p| <= |s|
    ensures OccursAt(s + t, p, i) <==> OccursAt(s, p, i)
  {
    assert (s + t)[i..i + |p|] == s[i..i + |p|];
  }

  /** The first occurrence of a single character is the first index holding it. */
  lemma IndexOfChar(s: string, c: char, i: nat)
    requires i < |s| && s[i] == c && forall j :: 0 <= j < i ==> s[j] != c
    ensures IndexOf(s, [c]) == Some(i)
  {
    assert OccursAt(s, [c], i);
    forall j | 0 <= j < i
      ensures !OccursAt(s, [c], j)
    {
      assert s[j] != c;
    }
  }

  /** A character that does not occur is not found. */
  lemma IndexOfCharAbsent(s: string, c: char)
    requires forall j :: 0 <= j < |s| ==> s[j] != c
    ensures IndexOf(s, [c]).None?
  {
    forall j | 0 <= j <= |s| - 1
      ensures !OccursAt(s, [c], j)
    {
      assert s[j] != c;
    }
  }
}

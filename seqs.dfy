/**
 * The three array methods the source builds its lists with, over Dafny sequences:
 * `filter`, `map` and `find` (and the backend's `.filter(...).first()`).
 */
module Seqs {
  import opened Wrappers

  /** `s.filter(p)`: the elements of `s` that satisfy `p`, in their original order. */
  function Filter<T>(s: seq<T>, p: T -> bool): (r: seq<T>)
    ensures |r| <= |s|
    ensures forall i :: 0 <= i < |r| ==> r[i] in s && p(r[i])
    ensures forall i :: 0 <= i < |s| && p(s[i]) ==> s[i] in r
    decreases |s|
  {
    if s == [] then [] else (if p(s[0]) then [s[0]] else []) + Filter(s[1..], p)
  }

  /** Filtering distributes over concatenation, which is what "keeps the original order" means. */
  lemma {:induction false} FilterAppend<T>(a: seq<T>, b: seq<T>, p: T -> bool)
    ensures Filter(a + b, p) == Filter(a, p) + Filter(b, p)
    decreases |a|
  {
    if a != [] {
      assert (a + b)[1..] == a[1..] + b;
      FilterAppend(a[1..], b, p);
    } else {
      assert a + b == b;
    }
  }

  /** A filter that every element passes gives back the whole sequence. */
  lemma {:induction false} FilterKeepsAll<T>(s: seq<T>, p: T -> bool)
    requires forall i :: 0 <= i < |s| ==> p(s[i])
    ensures Filter(s, p) == s
    decreases |s|
  {
    if s != [] {
      FilterKeepsAll(s[1..], p);
    }
  }

  /** Filtering out the one element that fails `p` is cutting it out. */
  lemma FilterDropsOne<T>(before: seq<T>, x: T, after: seq<T>, p: T -> bool)
    requires forall i :: 0 <= i < |before| ==> p(before[i])
    requires forall i :: 0 <= i < |after| ==> p(after[i])
    requires !p(x)
    ensures Filter(before + [x] + after, p) == before + after
  {
    FilterKeepsAll(before, p);
    FilterKeepsAll(after, p);
    FilterCutOne(before, x, after, p);
  }

  lemma FilterCutOne<T>(before: seq<T>, x: T, after: seq<T>, p: T -> bool)
    requires Filter(before, p) == before && Filter(after, p) == after && !p(x)
    ensures Filter(before + [x] + after, p) == before + after
  {
    FilterDropLast(before, x, p);
    FilterAppend(before + [x], after, p);
  }

  lemma FilterDropLast<T>(before: seq<T>, x: T, p: T -> bool)
    requires Filter(before, p) == before && !p(x)
    ensures Filter(before + [x], p) == before
  {
    FilterAppend(before, [x], p);
    assert [x][1..] == [];
    assert Filter([x], p) == [];
  }

  /**
   * Two complementary filters split a sequence: every element lands in exactly one of
   * the two results, so their lengths add up and their multisets add up.
   */
  lemma {:induction false} FilterPartition<T>(s: seq<T>, p: T -> bool, q: T -> bool)
    requires forall x :: q(x) == !p(x)
    ensures |Filter(s, p)| + |Filter(s, q)| == |s|
    ensures multiset(Filter(s, p)) + multiset(Filter(s, q)) == multiset(s)
    decreases |s|
  {
    if s != [] {
      FilterPartition(s[1..], p, q);
      assert s == [s[0]] + s[1..];
    }
  }

  /** `s.map(f)`: `f` applied to each element, position by position. */
  function Map<T, U>(s: seq<T>, f: T -> U): (r: seq<U>)
    ensures |r| == |s|
    ensures forall i :: 0 <= i < |s| ==> r[i] == f(s[i])
    decreases |s|
  {
    if s == [] then [] else [f(s[0])] + Map(s[1..], f)
  }

  /** Mapping twice with a function that undoes itself restores the sequence. */
  lemma MapInvolution<T>(s: seq<T>, f: T -> T)
    requires forall i :: 0 <= i < |s| ==> f(f(s[i])) == s[i]
    ensures Map(Map(s, f), f) == s
  {
  }

  /** Mapping with a function that leaves every element alone changes nothing. */
  lemma MapIdentity<T>(s: seq<T>, f: T -> T)
    requires forall i :: 0 <= i < |s| ==> f(s[i]) == s[i]
    ensures Map(s, f) == s
  {
  }

  /** Index of the first element satisfying `p`, if any. */
  function FindIndex<T>(s: seq<T>, p: T -> bool): (r: Option<nat>)
    ensures r.None? <==> forall i :: 0 <= i < |s| ==> !p(s[i])
    ensures r.Some? ==> r.value < |s| && p(s[r.value])
    ensures r.Some? ==> forall j :: 0 <= j < r.value ==> !p(s[j])
    decreases |s|
  {
    if s == [] then None
    else if p(s[0]) then Some(0)
    else match FindIndex(s[1..], p)
      case None => None
      case Some(k) => Some(k + 1)
  }

  /** FindIndex reports k when element k is the first to satisfy `p`. */
  lemma {:induction false} FindIndexUnique<T>(s: seq<T>, p: T -> bool, k: nat)
    requires k < |s| && p(s[k])
    requires forall j :: 0 <= j < k ==> !p(s[j])
    ensures FindIndex(s, p) == Some(k)
    decreases k
  {
    if k > 0 {
      FindIndexUnique(s[1..], p, k - 1);
    }
  }

  /** `s.find(p)`: the first element satisfying `p`, or None (JavaScript's `undefined`). */
  function Find<T>(s: seq<T>, p: T -> bool): (r: Option<T>)
    ensures r.None? <==> forall i :: 0 <= i < |s| ==> !p(s[i])
    ensures r.Some? ==> r.value in s && p(r.value)
    ensures r.Some? ==> exists i :: 0 <= i < |s| && s[i] == r.value && forall j :: 0 <= j < i ==> !p(s[j])
  {
    match FindIndex(s, p)
    case None => None
    case Some(k) => Some(s[k])
  }
}

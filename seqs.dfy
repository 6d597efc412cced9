/**
 * Order-preserving selection from a sequence: the meaning of TypeScript's and
 * Kotlin's `list.filter(p)` and of an SQL `WHERE` clause read in table order.
 */
module Seqs {

  /** `sub` keeps some of the elements of `s`, in the order they have in `s`. */
  predicate IsSubsequence<T(==)>(sub: seq<T>, s: seq<T>)
    decreases |s|
  {
    sub == []
    || (s != [] && ((sub[0] == s[0] && IsSubsequence(sub[1..], s[1..])) || IsSubsequence(sub, s[1..])))
  }

  /**
   * The elements of `s` that satisfy `p`, in their order in `s`: every element
   * of `s` satisfying `p` is kept as often as it occurs, and nothing else is.
   */
  function Filter<T(!new)>(s: seq<T>, p: T -> bool): (r: seq<T>)
    ensures IsSubsequence(r, s)
    ensures forall x :: multiset(r)[x] == if p(x) then multiset(s)[x] else 0
    ensures forall x :: x in r <==> x in s && p(x)
    ensures |r| <= |s|
  {
    if s == [] then []
    else
      var rest := Filter(s[1..], p);
      assert s == [s[0]] + s[1..];
      if p(s[0]) then
        assert ([s[0]] + rest)[1..] == rest;
        [s[0]] + rest
      else rest
  }

  /** A filter whose predicate holds everywhere keeps the whole sequence. */
  lemma {:induction false} FilterKeepsAll<T(!new)>(s: seq<T>, p: T -> bool)
    requires forall i | 0 <= i < |s| :: p(s[i])
    ensures Filter(s, p) == s
  {
    if s != [] {
      FilterKeepsAll(s[1..], p);
    }
  }

  /** Filtering a concatenation filters each part. */
  lemma {:induction false} FilterAppend<T(!new)>(a: seq<T>, b: seq<T>, p: T -> bool)
    ensures Filter(a + b, p) == Filter(a, p) + Filter(b, p)
  {
    if a == [] {
      assert a + b == b;
    } else {
      assert (a + b)[1..] == a[1..] + b;
      FilterAppend(a[1..], b, p);
    }
  }
  /** Filters by predicates that agree on every element give the same result. */
  lemma {:induction false} FilterCongruent<T(!new)>(s: seq<T>, p: T -> bool, q: T -> bool)
    requires forall i | 0 <= i < |s| :: p(s[i]) == q(s[i])
    ensures Filter(s, p) == Filter(s, q)
  {
    if s != [] {
      FilterCongruent(s[1..], p, q);
    }
  }
  /** `r` holds `f` of each element of `s` satisfying `p`, in their order in `s`. */
  ghost predicate MapsFiltered<A(!new), B>(r: seq<B>, s: seq<A>, p: A -> bool, f: A -> B)
  {
    var kept := Filter(s, p);
    |r| == |kept| && forall i | 0 <= i < |r| :: r[i] == f(kept[i])
  }

  /** One more element of `s` adds its image exactly when it satisfies `p`. */
  lemma MapsFilteredSnoc<A(!new), B>(r: seq<B>, s: seq<A>, p: A -> bool, f: A -> B, x: A)
    requires MapsFiltered(r, s, p, f)
    ensures MapsFiltered(r + (if p(x) then [f(x)] else []), s + [x], p, f)
  {
    var kept, tail: seq<A> := Filter(s, p), if p(x) then [x] else [];
    FilterSnoc(s, x, p);
    var r' := r + (if p(x) then [f(x)] else []);
    forall i | 0 <= i < |r'| ensures r'[i] == f((kept + tail)[i]) {
      if i < |r| {
        assert (kept + tail)[i] == kept[i];
      }
    }
  }

  /** Filtering one more element appends it exactly when it satisfies `p`. */
  lemma FilterSnoc<T(!new)>(s: seq<T>, x: T, p: T -> bool)
    ensures Filter(s + [x], p) == Filter(s, p) + if p(x) then [x] else []
  {
    FilterAppend(s, [x], p);
    assert [x][1..] == [];
  }

  /** The first element of `s` is the first element of its deduplication. */
  lemma DedupHead<T(!new)>(s: seq<T>)
    requires s != []
    ensures Dedup(s) != [] && Dedup(s)[0] == s[0]
  {
    var r := Dedup(s);
    assert s[0] in r;
  }

  /** A subsequence holds nothing that `s` does not. */
  lemma {:induction false} SubsequenceMembers<T>(sub: seq<T>, s: seq<T>)
    requires IsSubsequence(sub, s)
    ensures forall x | x in sub :: x in s
    decreases |s|
  {
    if sub != [] {
      if sub[0] == s[0] && IsSubsequence(sub[1..], s[1..]) {
        SubsequenceMembers(sub[1..], s[1..]);
        assert forall x | x in sub :: x == sub[0] || x in sub[1..] by {
          assert sub == [sub[0]] + sub[1..];
        }
      } else {
        SubsequenceMembers(sub, s[1..]);
      }
      assert forall x | x in s[1..] :: x in s;
    }
  }

  /** Filtering by `q` after filtering by a weaker `p` is filtering by `q` alone. */
  lemma {:induction false} FilterOfFilter<T(!new)>(s: seq<T>, p: T -> bool, q: T -> bool)
    requires forall x :: q(x) ==> p(x)
    ensures Filter(Filter(s, p), q) == Filter(s, q)
  {
    if s != [] {
      FilterOfFilter(s[1..], p, q);
    }
  }

  /** A filter keeps something exactly when some element satisfies the predicate. */
  lemma FilterNonEmpty<T(!new)>(s: seq<T>, p: T -> bool)
    ensures Filter(s, p) != [] <==> exists k | 0 <= k < |s| :: p(s[k])
  {
    var r := Filter(s, p);
    if r != [] {
      assert r[0] in r;
    }
    if exists k | 0 <= k < |s| :: p(s[k]) {
      var k :| 0 <= k < |s| && p(s[k]);
      assert s[k] in r;
    }
  }

  /** `s` read from its last element to its first. */
  function Reversed<T>(s: seq<T>): (r: seq<T>)
    ensures |r| == |s|
    ensures forall i | 0 <= i < |s| :: r[i] == s[|s| - 1 - i]
  {
    if s == [] then [] else [s[|s| - 1]] + Reversed(s[..|s| - 1])
  }

  /** The element appended last comes first in the reversal. */
  lemma ReversedSnoc<T>(s: seq<T>, x: T)
    ensures Reversed(s + [x]) == [x] + Reversed(s)
  {
    var a, b := Reversed(s + [x]), [x] + Reversed(s);
    assert forall i | 0 < i < |a| :: a[i] == b[i];
  }

  /** The position of the first occurrence of `x` in `s`. */
  function FirstIndex<T(==)>(s: seq<T>, x: T): (r: nat)
    requires x in s
    ensures r < |s| && s[r] == x
    ensures forall k | 0 <= k < r :: s[k] != x
  {
    if s[0] == x then 0 else 1 + FirstIndex(s[1..], x)
  }

  /** Appending an element leaves the first occurrences of earlier elements where they were. */
  lemma FirstIndexSnoc<T>(s: seq<T>, y: T, x: T)
    requires x in s
    ensures FirstIndex(s + [y], x) == FirstIndex(s, x)
  {
    var i, j := FirstIndex(s + [y], x), FirstIndex(s, x);
    assert (s + [y])[j] == x;
  }

  /**
   * `Array.from(new Set(s))`: each element of `s` once, in the order of its
   * first occurrence.
   */
  function Dedup<T(==, !new)>(s: seq<T>): (r: seq<T>)
    ensures forall i, j | 0 <= i < j < |r| :: r[i] != r[j]
    ensures forall x :: x in r <==> x in s
    ensures forall i, j | 0 <= i < j < |r| :: FirstIndex(s, r[i]) < FirstIndex(s, r[j])
  {
    if s == [] then []
    else
      var init, last := s[..|s| - 1], s[|s| - 1];
      assert s == init + [last];
      var r := Dedup(init);
      forall x | x in init ensures FirstIndex(s, x) == FirstIndex(init, x) {
        FirstIndexSnoc(init, last, x);
      }
      if last in r then r
      else
        r + [last]
  }
}

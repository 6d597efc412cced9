/**
 * The orderings behind the SQL `ORDER BY` and `SELECT DISTINCT ... ORDER BY`
 * clauses of the local stores.
 *
 * SQLite compares TEXT under its default BINARY collation, byte by byte on the
 * UTF-8 encoding, which orders strings by code point, lexicographically, with
 * a proper prefix first. SQL leaves the order of rows with equal sort keys
 * unspecified; the sort below settles ties by keeping table order, and every
 * query contract states only what SQL guarantees: the result is a permutation
 * of the selected rows and is sorted.
 */
module Ordering {
  import opened Seqs

  /** `a` sorts at or before `b` under SQLite's BINARY collation. */
  predicate StrLe(a: string, b: string)
  {
    a == [] || (b != [] && (a[0] < b[0] || (a[0] == b[0] && StrLe(a[1..], b[1..]))))
  }

  predicate StrLt(a: string, b: string)
  {
    StrLe(a, b) && a != b
  }

  lemma {:induction false} StrLeTotal(a: string, b: string)
    ensures StrLe(a, b) || StrLe(b, a)
  {
    if a != [] && b != [] && a[0] == b[0] {
      StrLeTotal(a[1..], b[1..]);
    }
  }

  lemma {:induction false} StrLeAntisymmetric(a: string, b: string)
    requires StrLe(a, b) && StrLe(b, a)
    ensures a == b
  {
    if a != [] && b != [] {
      StrLeAntisymmetric(a[1..], b[1..]);
      assert a == [a[0]] + a[1..] && b == [b[0]] + b[1..];
    }
  }

  lemma {:induction false} StrLeTransitive(a: string, b: string, c: string)
    requires StrLe(a, b) && StrLe(b, c)
    ensures StrLe(a, c)
  {
    if a != [] && b != [] && c != [] && a[0] == b[0] == c[0] {
      StrLeTransitive(a[1..], b[1..], c[1..]);
    }
  }

  /** A total preorder: any two elements compare, and comparison chains. */
  ghost predicate TotalPreorder<T(!new)>(le: (T, T) -> bool)
  {
    && (forall a, b :: le(a, b) || le(b, a))
    && (forall a, b, c :: le(a, b) && le(b, c) ==> le(a, c))
  }

  /** Comparing elements by a string key is a total preorder. */
  lemma StrLeOnKeyIsTotalPreorder<T(!new)>(le: (T, T) -> bool, key: T -> string)
    requires forall a, b :: le(a, b) == StrLe(key(a), key(b))
    ensures TotalPreorder(le)
  {
    forall a, b ensures le(a, b) || le(b, a) {
      StrLeTotal(key(a), key(b));
    }
    forall a, b, c | le(a, b) && le(b, c) ensures le(a, c) {
      StrLeTransitive(key(a), key(b), key(c));
    }
  }

  /** Every element sorts at or before every later one. */
  predicate SortedBy<T>(s: seq<T>, le: (T, T) -> bool)
  {
    forall i, j | 0 <= i < j < |s| :: le(s[i], s[j])
  }

  /** Dropping elements from a sorted sequence leaves it sorted. */
  lemma {:induction false} SortedBySubsequence<T>(sub: seq<T>, s: seq<T>, le: (T, T) -> bool)
    requires SortedBy(s, le) && IsSubsequence(sub, s)
    ensures SortedBy(sub, le)
    decreases |s|
  {
    if sub != [] {
      assert SortedBy(s[1..], le) by {
        assert forall i | 0 <= i < |s[1..]| :: s[1..][i] == s[i + 1];
      }
      if sub[0] == s[0] && IsSubsequence(sub[1..], s[1..]) {
        SortedBySubsequence(sub[1..], s[1..], le);
        SubsequenceMembers(sub[1..], s[1..]);
        forall j | 0 < j < |sub| ensures le(sub[0], sub[j]) {
          assert sub[j] == sub[1..][j - 1];
          assert sub[j] in sub[1..];
          var m :| 0 <= m < |s[1..]| && s[1..][m] == sub[j];
          assert s[m + 1] == sub[j];
        }
      } else {
        SortedBySubsequence(sub, s[1..], le);
      }
    }
  }

  /** A suffix of a sorted sequence is sorted. */
  lemma SortedBySuffix<T>(s: seq<T>, n: nat, le: (T, T) -> bool)
    requires SortedBy(s, le) && n <= |s|
    ensures SortedBy(s[n..], le)
  {
    assert forall i | 0 <= i < |s| - n :: s[n..][i] == s[n + i];
  }

  /** A lower bound of `t` and of `x` bounds any arrangement of `t` with `x` added. */
  lemma BoundCarriesOver<T>(y: T, r: seq<T>, t: seq<T>, x: T, le: (T, T) -> bool)
    requires multiset(r) == multiset(t) + multiset{x}
    requires le(y, x) && forall k | 0 <= k < |t| :: le(y, t[k])
    ensures forall k | 0 <= k < |r| :: le(y, r[k])
  {
    forall k | 0 <= k < |r| ensures le(y, r[k]) {
      assert r[k] in multiset(r);
      if r[k] != x {
        assert r[k] in multiset(t);
        var m :| 0 <= m < |t| && t[m] == r[k];
      }
    }
  }

  /** A lower bound of a sorted sequence can go in front of it. */
  lemma SortedByCons<T>(y: T, r: seq<T>, le: (T, T) -> bool)
    requires SortedBy(r, le) && forall k | 0 <= k < |r| :: le(y, r[k])
    ensures SortedBy([y] + r, le)
  {
    var s := [y] + r;
    assert forall k | 0 < k < |s| :: s[k] == r[k - 1];
  }

  /** Inserts `x` into sorted `s` before the first element it sorts at or before. */
  function Insert<T(!new)>(x: T, s: seq<T>, le: (T, T) -> bool): (r: seq<T>)
    requires TotalPreorder(le) && SortedBy(s, le)
    ensures multiset(r) == multiset(s) + multiset{x}
    ensures SortedBy(r, le)
  {
    if s == [] || le(x, s[0]) then
      assert forall j | 0 < j < |s| :: le(s[0], s[j]);
      [x] + s
    else
      var rest := Insert(x, s[1..], le);
      assert s == [s[0]] + s[1..];
      assert SortedBy([s[0]] + rest, le) by {
        assert le(s[0], x);
        assert forall k | 0 <= k < |s[1..]| :: le(s[0], s[1..][k]);
        BoundCarriesOver(s[0], rest, s[1..], x, le);
        SortedByCons(s[0], rest, le);
      }
      [s[0]] + rest
  }

  /** Insertion sort: a sorted permutation of `s` (equal elements keep their order). */
  function SortBy<T(!new)>(s: seq<T>, le: (T, T) -> bool): (r: seq<T>)
    requires TotalPreorder(le)
    ensures multiset(r) == multiset(s)
    ensures SortedBy(r, le)
  {
    if s == [] then []
    else
      assert s == [s[0]] + s[1..];
      Insert(s[0], SortBy(s[1..], le), le)
  }

  /** A sorted permutation has the same elements, so it has the same length. */
  lemma SortByKeepsMembers<T(!new)>(s: seq<T>, le: (T, T) -> bool)
    requires TotalPreorder(le)
    ensures |SortBy(s, le)| == |s|
    ensures forall x :: x in SortBy(s, le) <==> x in s
  {
    var r := SortBy(s, le);
    assert |r| == |multiset(r)| == |multiset(s)| == |s|;
    forall x ensures x in r <==> x in s {
      assert x in r <==> x in multiset(r);
      assert x in s <==> x in multiset(s);
    }
  }

  /** Strictly ascending, hence free of duplicates. */
  predicate StrictlyAscending(s: seq<string>)
  {
    forall i, j | 0 <= i < j < |s| :: StrLt(s[i], s[j])
  }

  lemma StrictlyAscendingHasNoDuplicates(s: seq<string>)
    requires StrictlyAscending(s)
    ensures forall i, j | 0 <= i < j < |s| :: s[i] != s[j]
  {
  }

  function InsertDistinct(x: string, s: seq<string>): (r: seq<string>)
    requires StrictlyAscending(s)
    ensures StrictlyAscending(r)
    ensures forall y :: y in r <==> y == x || y in s
  {
    if s == [] then [x]
    else if x == s[0] then s
    else if StrLe(x, s[0]) then
      assert forall j | 0 < j < |s| :: StrLt(x, s[j]) by {
        forall j | 0 < j < |s| ensures StrLt(x, s[j]) {
          StrLeTransitive(x, s[0], s[j]);
          if x == s[j] { StrLeAntisymmetric(s[0], s[j]); }
        }
      }
      [x] + s
    else
      var rest := InsertDistinct(x, s[1..]);
      StrLeTotal(x, s[0]);
      assert forall y :: y in s[1..] ==> y in s;
      assert forall k | 0 <= k < |rest| :: StrLt(s[0], rest[k]) by {
        forall k | 0 <= k < |rest| ensures StrLt(s[0], rest[k]) {
          assert rest[k] in rest;
          if rest[k] != x {
            var m :| 0 <= m < |s[1..]| && s[1..][m] == rest[k];
            assert s[m + 1] == rest[k];
          }
        }
      }
      assert forall y :: y in s <==> y == s[0] || y in s[1..] by {
        assert s == [s[0]] + s[1..];
      }
      [s[0]] + rest
  }

  /** `SELECT DISTINCT c ... ORDER BY c`: each value once, in ascending order. */
  function SortedDistinct(s: seq<string>): (r: seq<string>)
    ensures StrictlyAscending(r)
    ensures forall y :: y in r <==> y in s
  {
    if s == [] then []
    else
      assert forall y :: y in s <==> y == s[0] || y in s[1..] by {
        assert s == [s[0]] + s[1..];
      }
      InsertDistinct(s[0], SortedDistinct(s[1..]))
  }
}

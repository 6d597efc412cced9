/**
 * The home screen's ranked search over the formula catalog.
 *
 * A formula scores 10 when its name contains the lower-cased query, 5 more
 * when its description does and 3 more when one of its tags does. Formulas
 * scoring nothing are dropped, the rest are sorted by descending score (a
 * stable sort, so equal scores keep catalog order), and the first ten are
 * shown. A query that is empty after trimming shows nothing.
 *
 * The functions below are the specification; `HomeScreen.HandleSearch` is the
 * step-by-step procedure (a scoring loop, an in-place sort of an array, a
 * slice) proved to produce exactly `Search`.
 */
module HomeSearch {
  import opened Options
  import opened Text
  import opened Seqs
  import opened Ordering
  import opened Catalog
  import CategoryFilter

  /** The field a result is reported as matching on. */
  datatype MatchType = NameMatch | DescriptionMatch | TagsMatch

  datatype SearchResult = SearchResult(formula: Formula, matchType: MatchType, relevance: int)

  const NameScore := 10
  const DescriptionScore := 5
  const TagScore := 3
  const MaxResults := 10

  predicate NameHit(f: Formula, lowered: string)
  {
    Contains(Lower(f.name), lowered)
  }

  predicate DescriptionHit(f: Formula, lowered: string)
  {
    Contains(Lower(f.description), lowered)
  }

  /** `tags.some(tag => tag.toLowerCase().includes(lowered))` */
  predicate TagHit(f: Formula, lowered: string)
  {
    exists i | 0 <= i < |f.tags| :: Contains(Lower(f.tags[i]), lowered)
  }

  /** The score of `f` against an already lower-cased query. */
  function Relevance(f: Formula, lowered: string): (r: int)
    ensures r > 0 <==> NameHit(f, lowered) || DescriptionHit(f, lowered) || TagHit(f, lowered)
    ensures NameHit(f, lowered) ==> NameScore <= r
    ensures !NameHit(f, lowered) ==> r <= DescriptionScore + TagScore
    ensures 0 <= r <= NameScore + DescriptionScore + TagScore
  {
    (if NameHit(f, lowered) then NameScore else 0)
    + (if DescriptionHit(f, lowered) then DescriptionScore else 0)
    + (if TagHit(f, lowered) then TagScore else 0)
  }

  /** The last field found to match, checking name, then description, then tags. */
  function MatchTypeOf(f: Formula, lowered: string): MatchType
  {
    if TagHit(f, lowered) then TagsMatch
    else if DescriptionHit(f, lowered) then DescriptionMatch
    else if NameHit(f, lowered) then NameMatch
    else TagsMatch
  }

  /** The result entry for `f`. */
  function Score(f: Formula, lowered: string): SearchResult
  {
    SearchResult(f, MatchTypeOf(f, lowered), Relevance(f, lowered))
  }

  /** The scored formulas with a positive score, in catalog order (the `results` array before sorting). */
  function Scored(catalog: seq<Formula>, lowered: string): (r: seq<SearchResult>)
    ensures |r| <= |catalog|
  {
    if catalog == [] then []
    else
      var init := catalog[..|catalog| - 1];
      var last := catalog[|catalog| - 1];
      assert catalog == init + [last];
      Scored(init, lowered) + (if Relevance(last, lowered) > 0 then [Score(last, lowered)] else [])
  }

  /** Scoring one more formula appends its entry when it scores. */
  lemma ScoredSnoc(catalog: seq<Formula>, f: Formula, lowered: string)
    ensures Scored(catalog + [f], lowered)
      == Scored(catalog, lowered) + (if Relevance(f, lowered) > 0 then [Score(f, lowered)] else [])
  {
    assert (catalog + [f])[..|catalog|] == catalog;
  }

  /** Whether a formula scores above zero. */
  function ScoresAboveZero(lowered: string): Formula -> bool
  {
    (f: Formula) => Relevance(f, lowered) > 0
  }

  /** The entry a formula earns. */
  function ScoreWith(lowered: string): Formula -> SearchResult
  {
    (f: Formula) => Score(f, lowered)
  }

  /**
   * The scored list is the entry of each formula scoring above zero, in
   * catalog order and once per occurrence: the scores of the order-preserving
   * filter of the catalog.
   */
  lemma {:induction false} ScoredIsFilteredScores(catalog: seq<Formula>, lowered: string)
    ensures MapsFiltered(Scored(catalog, lowered), catalog, ScoresAboveZero(lowered), ScoreWith(lowered))
  {
    if catalog != [] {
      var init, last := catalog[..|catalog| - 1], catalog[|catalog| - 1];
      assert catalog == init + [last];
      ScoredIsFilteredScores(init, lowered);
      MapsFilteredSnoc(Scored(init, lowered), init, ScoresAboveZero(lowered), ScoreWith(lowered), last);
    }
  }

  /** Non-increasing relevance. */
  predicate Descending(s: seq<SearchResult>)
  {
    forall i, j | 0 <= i < j < |s| :: s[i].relevance >= s[j].relevance
  }

  /** The entries of `s` with relevance `v`, in their order in `s`. */
  function Band(s: seq<SearchResult>, v: int): seq<SearchResult>
  {
    if s == [] then []
    else (if s[0].relevance == v then [s[0]] else []) + Band(s[1..], v)
  }

  /** The comparison behind `(a, b) => b.relevance - a.relevance`: `a` may precede `b`. */
  function RelevanceGe(): (SearchResult, SearchResult) -> bool
  {
    (a: SearchResult, b: SearchResult) => a.relevance >= b.relevance
  }

  lemma RelevanceGeIsTotalPreorder()
    ensures TotalPreorder(RelevanceGe())
  {
  }

  /** The stable sort by descending relevance. */
  function SortByRelevance(s: seq<SearchResult>): (r: seq<SearchResult>)
    ensures multiset(r) == multiset(s)
    ensures Descending(r)
  {
    RelevanceGeIsTotalPreorder();
    SortBy(s, RelevanceGe())
  }

  /** `handleSearch`: the results shown for `query`. */
  function Search(catalog: seq<Formula>, query: string): (r: seq<SearchResult>)
    ensures |r| <= MaxResults
    ensures Descending(r)
  {
    if Trim(query) == [] then []
    else
      var sorted := SortByRelevance(Scored(catalog, Lower(query)));
      var n := if |sorted| < MaxResults then |sorted| else MaxResults;
      sorted[..n]
  }

  // ---------------------------------------------------------------------------
  // Bands: what a stable sort keeps

  lemma BandCons(x: SearchResult, s: seq<SearchResult>, v: int)
    ensures Band([x] + s, v) == (if x.relevance == v then [x] else []) + Band(s, v)
  {
    assert ([x] + s)[1..] == s;
  }

  lemma BandSingleton(x: SearchResult, v: int)
    ensures Band([x], v) == if x.relevance == v then [x] else []
  {
    BandCons(x, [], v);
    assert [x] + [] == [x];
  }

  lemma {:induction false} BandAppend(a: seq<SearchResult>, b: seq<SearchResult>, v: int)
    ensures Band(a + b, v) == Band(a, v) + Band(b, v)
  {
    if a == [] {
      assert a + b == b;
    } else {
      assert a + b == [a[0]] + (a[1..] + b);
      BandAppend(a[1..], b, v);
      BandCons(a[0], a[1..] + b, v);
    }
  }

  /** Neighbours of different relevance can be exchanged without changing a band. */
  lemma PairBands(y: SearchResult, z: SearchResult, q: seq<SearchResult>, v: int)
    requires y.relevance != z.relevance
    ensures Band([y, z] + q, v) == Band([z, y] + q, v)
  {
    assert [y, z] + q == [y] + ([z] + q);
    assert [z, y] + q == [z] + ([y] + q);
    BandCons(y, [z] + q, v);
    BandCons(z, q, v);
    BandCons(z, [y] + q, v);
    BandCons(y, q, v);
  }

  /** Exchanging two neighbours of different relevance changes no band. */
  lemma SwapKeepsBands(s: seq<SearchResult>, j: nat)
    requires 0 < j < |s| && s[j - 1].relevance != s[j].relevance
    ensures forall v :: Band(s[j - 1 := s[j]][j := s[j - 1]], v) == Band(s, v)
  {
    var t := s[j - 1 := s[j]][j := s[j - 1]];
    var p, q := s[..j - 1], s[j + 1..];
    assert s == p + ([s[j - 1], s[j]] + q);
    assert t == p + ([s[j], s[j - 1]] + q);
    forall v ensures Band(t, v) == Band(s, v) {
      BandAppend(p, [s[j - 1], s[j]] + q, v);
      BandAppend(p, [s[j], s[j - 1]] + q, v);
      PairBands(s[j - 1], s[j], q, v);
    }
  }

  /** Inserting `x` into a sorted list adds `x` at the head of its band. */
  lemma {:induction false} InsertBands(x: SearchResult, s: seq<SearchResult>, v: int)
    requires TotalPreorder(RelevanceGe()) && SortedBy(s, RelevanceGe())
    ensures Band(Insert(x, s, RelevanceGe()), v) == (if x.relevance == v then [x] else []) + Band(s, v)
  {
    var le := RelevanceGe();
    if s == [] || le(x, s[0]) {
      assert Insert(x, s, le) == [x] + s;
      BandCons(x, s, v);
    } else {
      var rest := Insert(x, s[1..], le);
      assert Insert(x, s, le) == [s[0]] + rest;
      InsertBands(x, s[1..], v);
      InsertBandsStep(x, s[0], s[1..], rest, v);
      assert s == [s[0]] + s[1..];
      BandCons(s[0], s[1..], v);
    }
  }

  /** Two prefixes of which one is empty can be added in either order. */
  lemma SwapEmptyFront<T>(p: seq<T>, q: seq<T>, b: seq<T>)
    requires p == [] || q == []
    ensures p + (q + b) == q + (p + b)
  {
    if p == [] {
      assert [] + (q + b) == q + b == q + ([] + b);
    } else {
      assert p + ([] + b) == p + b == [] + (p + b);
    }
  }

  lemma InsertBandsStep(x: SearchResult, y: SearchResult, t: seq<SearchResult>, rest: seq<SearchResult>, v: int)
    requires y.relevance > x.relevance
    requires Band(rest, v) == (if x.relevance == v then [x] else []) + Band(t, v)
    ensures Band([y] + rest, v) == (if x.relevance == v then [x] else []) + ((if y.relevance == v then [y] else []) + Band(t, v))
  {
    var xs: seq<SearchResult> := if x.relevance == v then [x] else [];
    var ys: seq<SearchResult> := if y.relevance == v then [y] else [];
    BandCons(y, rest, v);
    SwapEmptyFront(ys, xs, Band(t, v));
  }

  /** The stable sort keeps every band as it is. */
  lemma {:induction false} SortByRelevanceKeepsBands(s: seq<SearchResult>, v: int)
    ensures Band(SortByRelevance(s), v) == Band(s, v)
  {
    RelevanceGeIsTotalPreorder();
    if s != [] {
      assert s == [s[0]] + s[1..];
      SortByRelevanceKeepsBands(s[1..], v);
      InsertBands(s[0], SortBy(s[1..], RelevanceGe()), v);
      BandCons(s[0], s[1..], v);
    }
  }

  /** The head of a list opens its own band. */
  lemma HeadOpensBand(a: seq<SearchResult>)
    requires a != []
    ensures Band(a, a[0].relevance) == [a[0]] + Band(a[1..], a[0].relevance)
  {
    assert a == [a[0]] + a[1..];
    BandCons(a[0], a[1..], a[0].relevance);
  }

  /** The band for `v` holds exactly the entries with relevance `v`. */
  lemma {:induction false} BandMembers(a: seq<SearchResult>, v: int)
    ensures forall x :: x in Band(a, v) <==> x in a && x.relevance == v
  {
    if a != [] {
      BandMembers(a[1..], v);
      assert a == [a[0]] + a[1..];
    }
  }

  /** The head of a descending list has the largest relevance in it. */
  lemma HeadIsLargest(a: seq<SearchResult>, y: SearchResult)
    requires Descending(a) && y in a
    ensures a[0].relevance >= y.relevance
  {
  }

  /** Descending lists with the same bands start with the same entry. */
  lemma SameBandsSameHead(a: seq<SearchResult>, b: seq<SearchResult>)
    requires Descending(a) && Descending(b) && a != [] && b != []
    requires forall v :: Band(a, v) == Band(b, v)
    ensures a[0] == b[0]
  {
    var va, vb := a[0].relevance, b[0].relevance;
    HeadOpensBand(a);
    HeadOpensBand(b);
    BandMembers(a, vb);
    BandMembers(b, va);
    assert Band(a, va) == Band(b, va) && Band(a, vb) == Band(b, vb);
    HeadIsLargest(b, a[0]);
    HeadIsLargest(a, b[0]);
    assert Band(b, va)[0] == b[0];
  }

  /** Removing a shared head keeps the bands equal. */
  lemma SameBandsTails(a: seq<SearchResult>, b: seq<SearchResult>)
    requires a != [] && b != [] && a[0] == b[0]
    requires forall v :: Band(a, v) == Band(b, v)
    ensures forall v :: Band(a[1..], v) == Band(b[1..], v)
  {
    forall v ensures Band(a[1..], v) == Band(b[1..], v) {
      var h := if a[0].relevance == v then [a[0]] else [];
      assert Band(a, v) == h + Band(a[1..], v);
      assert Band(b, v) == h + Band(b[1..], v);
      assert Band(a[1..], v) == (h + Band(a[1..], v))[|h|..];
      assert Band(b[1..], v) == (h + Band(b[1..], v))[|h|..];
    }
  }

  /** A non-empty list has a non-empty band. */
  lemma NonEmptyBand(a: seq<SearchResult>)
    requires a != []
    ensures Band(a, a[0].relevance) != []
  {
    HeadOpensBand(a);
  }

  /** Two descending lists with the same bands are the same list: a stable sort has one result. */
  lemma {:induction false} DescendingBandsDetermine(a: seq<SearchResult>, b: seq<SearchResult>)
    requires Descending(a) && Descending(b)
    requires forall v :: Band(a, v) == Band(b, v)
    ensures a == b
  {
    if a != [] && b == [] {
      NonEmptyBand(a);
    } else if a == [] && b != [] {
      NonEmptyBand(b);
    } else if a != [] {
      SameBandsSameHead(a, b);
      SameBandsTails(a, b);
      DescendingBandsDetermine(a[1..], b[1..]);
      assert a == [a[0]] + a[1..] && b == [b[0]] + b[1..];
    }
  }

  // ---------------------------------------------------------------------------
  // What the search promises

  /** Scoring a catalog in two parts scores each part in turn. */
  lemma {:induction false} ScoredAppend(a: seq<Formula>, b: seq<Formula>, lowered: string)
    ensures Scored(a + b, lowered) == Scored(a, lowered) + Scored(b, lowered)
    decreases |b|
  {
    if b == [] {
      assert a + b == a;
    } else {
      var init, last := b[..|b| - 1], b[|b| - 1];
      assert b == init + [last];
      assert a + b == (a + init) + [last];
      ScoredSnoc(a + init, last, lowered);
      ScoredSnoc(init, last, lowered);
      ScoredAppend(a, init, lowered);
    }
  }

  /** A catalog split at its head scores its head first. */
  lemma ScoredCons(f: Formula, t: seq<Formula>, lowered: string)
    ensures Scored([f] + t, lowered)
      == (if Relevance(f, lowered) > 0 then [Score(f, lowered)] else []) + Scored(t, lowered)
  {
    ScoredAppend([f], t, lowered);
    assert [f] == [] + [f];
    ScoredSnoc([], f, lowered);
  }

  /**
   * The scored list holds exactly the entries of the formulas that score above
   * zero, each entry as `Score` computes it.
   */
  lemma {:induction false} ScoredMembers(catalog: seq<Formula>, lowered: string)
    ensures forall x | x in Scored(catalog, lowered) ::
      x.formula in catalog && x == Score(x.formula, lowered) && x.relevance > 0
    ensures forall f | f in catalog && Relevance(f, lowered) > 0 :: Score(f, lowered) in Scored(catalog, lowered)
  {
    if catalog != [] {
      var init, last := catalog[..|catalog| - 1], catalog[|catalog| - 1];
      assert catalog == init + [last];
      ScoredMembers(init, lowered);
      ScoredSnoc(init, last, lowered);
    }
  }

  /** Distinct formulas give distinct entries, in catalog order. */
  lemma {:induction false} ScoredDistinct(catalog: seq<Formula>, lowered: string)
    requires forall i, j | 0 <= i < j < |catalog| :: catalog[i] != catalog[j]
    ensures forall i, j | 0 <= i < j < |Scored(catalog, lowered)| ::
      Scored(catalog, lowered)[i] != Scored(catalog, lowered)[j]
  {
    if catalog != [] {
      var init, last := catalog[..|catalog| - 1], catalog[|catalog| - 1];
      assert catalog == init + [last];
      ScoredDistinct(init, lowered);
      ScoredSnoc(init, last, lowered);
      ScoredMembers(init, lowered);
      assert last !in init;
    }
  }

  /** Entries of a list with equal entries at two places occur twice. */
  lemma TwiceInMultiset<T>(s: seq<T>, i: nat, j: nat)
    requires i < j < |s| && s[i] == s[j]
    ensures multiset(s)[s[i]] >= 2
  {
    assert s == s[..j] + s[j..];
    assert s[i] in s[..j];
    assert s[j..][0] == s[j];
  }

  /** A list without repeated entries holds each entry once. */
  lemma {:induction false} OnceInMultiset<T>(s: seq<T>, x: T)
    requires forall i, j | 0 <= i < j < |s| :: s[i] != s[j]
    ensures multiset(s)[x] <= 1
  {
    if s != [] {
      assert s == [s[0]] + s[1..];
      OnceInMultiset(s[1..], x);
      if x == s[0] {
        assert x !in s[1..];
      }
    }
  }

  /** The results shown for a blank query: none. */
  lemma BlankQueryShowsNothing(catalog: seq<Formula>, query: string)
    requires AllJsWhitespace(query)
    ensures Search(catalog, query) == []
  {
    TrimEmptyIffAllWhitespace(query);
  }

  /**
   * A non-blank query shows the first ten entries of the sorted scored list,
   * or all of them when fewer.
   */
  lemma ResultCount(catalog: seq<Formula>, query: string)
    requires !AllJsWhitespace(query)
    ensures var n := |Scored(catalog, Lower(query))|;
      |Search(catalog, query)| == if n < MaxResults then n else MaxResults
    ensures var sorted := SortByRelevance(Scored(catalog, Lower(query)));
      |Search(catalog, query)| <= |sorted| && Search(catalog, query) == sorted[..|Search(catalog, query)|]
  {
    TrimEmptyIffAllWhitespace(query);
    RelevanceGeIsTotalPreorder();
    SortByKeepsMembers(Scored(catalog, Lower(query)), RelevanceGe());
    SearchIsPrefix(catalog, query);
  }

  /**
   * Every result is the entry of a catalog formula scoring above zero: its
   * relevance and its match type are the ones that formula earns.
   */
  lemma ResultsComeFromCatalog(catalog: seq<Formula>, query: string)
    ensures forall x | x in Search(catalog, query) ::
      && x.formula in catalog
      && x.relevance == Relevance(x.formula, Lower(query)) > 0
      && x.matchType == MatchTypeOf(x.formula, Lower(query))
  {
    if Trim(query) != [] {
      var scored := Scored(catalog, Lower(query));
      var sorted := SortByRelevance(scored);
      ScoredMembers(catalog, Lower(query));
      forall x | x in Search(catalog, query)
        ensures x.formula in catalog && x == Score(x.formula, Lower(query)) && x.relevance > 0
      {
        assert x in sorted;
        assert x in multiset(sorted);
        assert x in scored;
      }
    }
  }

  /** A non-blank query shows a prefix of the sorted scored entries. */
  lemma SearchIsPrefix(catalog: seq<Formula>, query: string)
    requires Trim(query) != []
    ensures var sorted := SortByRelevance(Scored(catalog, Lower(query)));
      |Search(catalog, query)| <= |sorted| && Search(catalog, query) == sorted[..|Search(catalog, query)|]
  {
  }

  /** An entry of `s` left out of a prefix of its sort scores no higher than any entry in the prefix. */
  lemma PrefixHoldsTheBest(s: seq<SearchResult>, n: nat, x: SearchResult, y: SearchResult)
    requires n <= |SortByRelevance(s)|
    requires x in s && x !in SortByRelevance(s)[..n] && y in SortByRelevance(s)[..n]
    ensures y.relevance >= x.relevance
  {
    var sorted := SortByRelevance(s);
    assert x in multiset(s);
    assert x in sorted;
    var k :| 0 <= k < |sorted| && sorted[k] == x;
    var i :| 0 <= i < n && sorted[..n][i] == y;
    assert sorted[i] == y;
    assert k >= n;
  }

  /** The entries of a score in a prefix of the sort are a prefix of that score's entries in `s`. */
  lemma PrefixKeepsBands(s: seq<SearchResult>, n: nat, v: int)
    requires n <= |SortByRelevance(s)|
    ensures Band(SortByRelevance(s)[..n], v) <= Band(s, v)
  {
    var sorted := SortByRelevance(s);
    assert sorted == sorted[..n] + sorted[n..];
    SortByRelevanceKeepsBands(s, v);
    BandAppend(sorted[..n], sorted[n..], v);
  }

  /** No formula left out of the results scores above one that is shown. */
  lemma ResultsAreTheBest(catalog: seq<Formula>, query: string)
    requires !AllJsWhitespace(query)
    ensures forall x, y | x in Scored(catalog, Lower(query)) && x !in Search(catalog, query)
                          && y in Search(catalog, query) :: y.relevance >= x.relevance
  {
    TrimEmptyIffAllWhitespace(query);
    var scored := Scored(catalog, Lower(query));
    var r := Search(catalog, query);
    SearchIsPrefix(catalog, query);
    forall x, y | x in scored && x !in r && y in r ensures y.relevance >= x.relevance {
      PrefixHoldsTheBest(scored, |r|, x, y);
    }
  }

  /**
   * Equal scores keep catalog order: the results with a given score are the
   * first of the scored entries with that score, in catalog order.
   */
  lemma EqualScoresKeepCatalogOrder(catalog: seq<Formula>, query: string)
    requires !AllJsWhitespace(query)
    ensures forall v :: Band(Search(catalog, query), v) <= Band(Scored(catalog, Lower(query)), v)
  {
    TrimEmptyIffAllWhitespace(query);
    var scored := Scored(catalog, Lower(query));
    var r := Search(catalog, query);
    SearchIsPrefix(catalog, query);
    forall v ensures Band(r, v) <= Band(scored, v) {
      PrefixKeepsBands(scored, |r|, v);
    }
  }

  /** A result whose name matches is never shown after one whose name does not. */
  lemma NameMatchesComeFirst(catalog: seq<Formula>, query: string)
    ensures forall i, j | 0 <= i < j < |Search(catalog, query)| ::
      NameHit(Search(catalog, query)[j].formula, Lower(query))
      ==> NameHit(Search(catalog, query)[i].formula, Lower(query))
  {
    ResultsComeFromCatalog(catalog, query);
    var r := Search(catalog, query);
    forall i, j | 0 <= i < j < |r| && NameHit(r[j].formula, Lower(query))
      ensures NameHit(r[i].formula, Lower(query))
    {
      assert r[i] in r && r[j] in r;
    }
  }

  /** A catalog without repeated formulas yields results without repeated formulas. */
  lemma ResultsDistinct(catalog: seq<Formula>, query: string)
    requires forall i, j | 0 <= i < j < |catalog| :: catalog[i] != catalog[j]
    ensures forall i, j | 0 <= i < j < |Search(catalog, query)| ::
      Search(catalog, query)[i].formula != Search(catalog, query)[j].formula
  {
    var r := Search(catalog, query);
    if Trim(query) != [] {
      var scored := Scored(catalog, Lower(query));
      var sorted := SortByRelevance(scored);
      ResultsComeFromCatalog(catalog, query);
      ScoredDistinct(catalog, Lower(query));
      forall i, j | 0 <= i < j < |r| ensures r[i].formula != r[j].formula {
        assert r[i] in r && r[j] in r;
        if r[i].formula == r[j].formula {
          assert r[i] == r[j];
          assert sorted[i] == sorted[j];
          TwiceInMultiset(sorted, i, j);
          OnceInMultiset(scored, r[i]);
          assert false;
        }
      }
    }
  }

  /** A stable sort keeps first an entry no other entry outscores. */
  lemma TopScoreStaysFirst(s: seq<SearchResult>)
    requires s != [] && forall x | x in s :: s[0].relevance >= x.relevance
    ensures SortByRelevance(s)[0] == s[0]
  {
    RelevanceGeIsTotalPreorder();
    assert s == [s[0]] + s[1..];
    var rest := SortBy(s[1..], RelevanceGe());
    if rest != [] {
      assert rest[0] in multiset(s[1..]);
      assert rest[0] in s;
    }
  }

  lemma QuadraticNameHit()
    ensures NameHit(QuadraticFormula, "quad")
  {
    assert OccursAt(Lower(QuadraticFormula.name), "quad", 0);
  }

  lemma QuadraticDescriptionHead()
    ensures QuadraticFormula.description[..30] == "Solution to quadratic equation"
  {
  }

  lemma QuadraticDescriptionQuad()
    ensures QuadraticFormula.description[12..16] == "quad"
  {
    var d := QuadraticFormula.description;
    QuadraticDescriptionHead();
    var h := d[..30];
    assert h[12..16] == "quad";
    assert d[12..16] == h[12..16];
  }

  lemma QuadraticDescriptionHit()
    ensures DescriptionHit(QuadraticFormula, "quad")
  {
    var d := QuadraticFormula.description;
    QuadraticDescriptionQuad();
    LowerSlice(d, 12, 16);
    assert Lower("quad") == "quad";
    assert OccursAt(Lower(d), "quad", 12);
  }

  lemma QuadraticTagHit()
    ensures TagHit(QuadraticFormula, "quad")
  {
    assert OccursAt(Lower(QuadraticFormula.tags[0]), "quad", 0);
  }

  /** The quadratic formula matches "quad" on its name, its description and a tag. */
  lemma QuadraticFormulaScoresTop()
    ensures Score(QuadraticFormula, "quad") == SearchResult(QuadraticFormula, TagsMatch, 18)
  {
    QuadraticNameHit();
    QuadraticDescriptionHit();
    QuadraticTagHit();
  }

  /** Searching the seed catalog for "quad" puts the quadratic formula first, with the top score 18. */
  lemma QuadraticFormulaFirst()
    ensures Search(Catalog.Formulas, "quad") != []
    ensures Search(Catalog.Formulas, "quad")[0]
      == SearchResult(QuadraticFormula, TagsMatch, NameScore + DescriptionScore + TagScore)
  {
    var q := "quad";
    assert !IsJsWhitespace(q[0]);
    TrimEmptyIffAllWhitespace(q);
    assert Lower(q) == q;
    QuadraticFormulaScoresTop();
    FirstScoredFirst(Catalog.Formulas, q);
  }

  /** A first formula earning the top score heads the results of a non-blank query. */
  lemma FirstScoredFirst(catalog: seq<Formula>, q: string)
    requires catalog != [] && Trim(q) != []
    requires Relevance(catalog[0], Lower(q)) == NameScore + DescriptionScore + TagScore
    ensures Search(catalog, q) != [] && Search(catalog, q)[0] == Score(catalog[0], Lower(q))
  {
    var f := catalog[0];
    var scored := Scored(catalog, Lower(q));
    assert scored != [] && scored[0] == Score(f, Lower(q)) by {
      assert catalog == [f] + catalog[1..];
      ScoredCons(f, catalog[1..], Lower(q));
    }
    assert forall x | x in scored :: scored[0].relevance >= x.relevance by {
      ScoredMembers(catalog, Lower(q));
    }
    TopScoreStaysFirst(scored);
    assert |SortByRelevance(scored)| == |scored| by {
      RelevanceGeIsTotalPreorder();
      SortByKeepsMembers(scored, RelevanceGe());
    }
  }

  // ---------------------------------------------------------------------------
  // Per-category counts on the category cards

  /** The number shown on a category's card: how many formulas are filed under it. */
  function CategoryCount(catalog: seq<Formula>, categoryId: string): (n: nat)
    ensures n <= |catalog|
  {
    |CategoryFilter.CategoryFormulas(catalog, categoryId)|
  }

  /** The counts of the categories `ids`, added up. */
  function CountSum(catalog: seq<Formula>, ids: seq<string>): nat
  {
    if ids == [] then 0 else CategoryCount(catalog, ids[0]) + CountSum(catalog, ids[1..])
  }

  /** How many times `x` occurs in `ids`. */
  function Occurrences(ids: seq<string>, x: string): nat
  {
    if ids == [] then 0 else (if ids[0] == x then 1 else 0) + Occurrences(ids[1..], x)
  }

  lemma {:induction false} OccurrencesOfDistinct(ids: seq<string>, x: string)
    requires forall i, j | 0 <= i < j < |ids| :: ids[i] != ids[j]
    ensures Occurrences(ids, x) == if x in ids then 1 else 0
  {
    if ids != [] {
      OccurrencesOfDistinct(ids[1..], x);
      assert ids == [ids[0]] + ids[1..];
      if ids[0] == x {
        assert x !in ids[1..];
      }
    }
  }

  lemma CategoryCountCons(f: Formula, t: seq<Formula>, id: string)
    ensures CategoryCount([f] + t, id) == (if f.category == id then 1 else 0) + CategoryCount(t, id)
  {
    FilterAppend([f], t, (g: Formula) => g.category == id);
    assert CategoryFilter.CategoryFormulas([f] + t, id) == Filter([f] + t, (g: Formula) => g.category == id);
    assert [f][1..] == [];
  }

  lemma {:induction false} CountSumCons(f: Formula, t: seq<Formula>, ids: seq<string>)
    ensures CountSum([f] + t, ids) == Occurrences(ids, f.category) + CountSum(t, ids)
  {
    if ids != [] {
      CountSumCons(f, t, ids[1..]);
      CategoryCountCons(f, t, ids[0]);
    }
  }

  /**
   * When the categories `ids` are distinct and every formula is filed under
   * one of them, the card counts add up to the size of the catalog.
   */
  lemma {:induction false} CountsAddUp(catalog: seq<Formula>, ids: seq<string>)
    requires forall i, j | 0 <= i < j < |ids| :: ids[i] != ids[j]
    requires forall k | 0 <= k < |catalog| :: catalog[k].category in ids
    ensures CountSum(catalog, ids) == |catalog|
  {
    if catalog == [] {
      CountSumEmpty(ids);
    } else {
      assert catalog == [catalog[0]] + catalog[1..];
      CountsAddUp(catalog[1..], ids);
      CountSumCons(catalog[0], catalog[1..], ids);
      OccurrencesOfDistinct(ids, catalog[0].category);
    }
  }

  lemma {:induction false} CountSumEmpty(ids: seq<string>)
    ensures CountSum([], ids) == 0
  {
    if ids != [] {
      CountSumEmpty(ids[1..]);
    }
  }

  /** The ids of `categories`, in order. */
  function CategoryIds(categories: seq<Category>): (r: seq<string>)
    ensures |r| == |categories|
    ensures forall k | 0 <= k < |categories| :: r[k] == categories[k].id
  {
    seq(|categories|, k requires 0 <= k < |categories| => categories[k].id)
  }

  /** The seed catalog's six category cards count its ten formulas between them. */
  lemma SeedCountsAddUp()
    ensures CountSum(Catalog.Formulas, CategoryIds(Catalog.Categories)) == |Catalog.Formulas|
  {
    var ids := CategoryIds(Catalog.Categories);
    CategoryIdsDistinct();
    FormulasWellFiled();
    forall k | 0 <= k < |Catalog.Formulas| ensures Catalog.Formulas[k].category in ids {
      var c := CategoryIndex(Catalog.Formulas[k].category);
      assert ids[c.value] == Catalog.Formulas[k].category;
    }
    CountsAddUp(Catalog.Formulas, ids);
  }

  // ---------------------------------------------------------------------------
  // The screen: a scoring loop, an in-place stable sort, a slice

  /** `s` and `t` hold, score by score, the same entries in the same order. */
  ghost predicate SameBands(s: seq<SearchResult>, t: seq<SearchResult>)
  {
    forall v :: Band(s, v) == Band(t, v)
  }

  /**
   * Sorts `a` in place by descending relevance, moving each entry left past
   * the entries of strictly lower relevance only, so equal entries keep their
   * order (the `results.sort` call).
   */
  method SortByRelevanceInPlace(a: array<SearchResult>)
    modifies a
    ensures Descending(a[..])
    ensures SameBands(a[..], old(a[..]))
  {
    if a.Length == 0 {
      return;
    }
    var i := 1;
    while i < a.Length
      invariant 1 <= i <= a.Length
      invariant Descending(a[..i])
      invariant SameBands(a[..], old(a[..]))
    {
      SinkEntry(a, i);
      i := i + 1;
    }
    assert a[..] == a[..a.Length];
  }

  /**
   * One pass of the sort: moves `a[i]` left past the entries of strictly
   * lower relevance, so the first `i + 1` entries are in descending order.
   */
  method SinkEntry(a: array<SearchResult>, i: nat)
    requires 0 < i < a.Length && Descending(a[..i])
    modifies a
    ensures Descending(a[..i + 1])
    ensures SameBands(a[..], old(a[..]))
  {
    var j := i;
    while j > 0 && a[j - 1].relevance < a[j].relevance
      invariant 0 <= j <= i
      invariant forall k, m | 0 <= k < m <= i && k != j && m != j :: a[k].relevance >= a[m].relevance
      invariant forall m | j < m <= i :: a[j].relevance > a[m].relevance
      invariant SameBands(a[..], old(a[..]))
    {
      SwapKeepsBands(a[..], j);
      a[j - 1], a[j] := a[j], a[j - 1];
      j := j - 1;
    }
  }

  /** The `formulas.forEach` loop: scores every formula and keeps those scoring above zero. */
  method ScoreAll(formulas: seq<Formula>, lowerQuery: string) returns (results: seq<SearchResult>)
    ensures results == Scored(formulas, lowerQuery)
  {
    results := [];
    var i := 0;
    while i < |formulas|
      invariant 0 <= i <= |formulas|
      invariant results == Scored(formulas[..i], lowerQuery)
    {
      var formula := formulas[i];
      var scored := ScoreOne(formula, lowerQuery);
      if scored.relevance > 0 {
        results := results + [scored];
      }
      assert Scored(formulas[..i + 1], lowerQuery) == Scored(formulas[..i], lowerQuery)
        + (if Relevance(formula, lowerQuery) > 0 then [Score(formula, lowerQuery)] else []) by {
        assert formulas[..i + 1] == formulas[..i] + [formula];
        ScoredSnoc(formulas[..i], formula, lowerQuery);
      }
      i := i + 1;
    }
    assert formulas[..i] == formulas;
  }

  /**
   * The body of that loop for one formula: 10 for the name, 5 for the
   * description and 3 for the tags, the match type set by the last test that
   * hits.
   */
  method ScoreOne(formula: Formula, lowerQuery: string) returns (r: SearchResult)
    ensures r.formula == formula && r.relevance == Relevance(formula, lowerQuery)
    ensures r.relevance > 0 ==> r == Score(formula, lowerQuery)
  {
    var relevance := 0;
    var matchType := TagsMatch;
    if Contains(Lower(formula.name), lowerQuery) {
      relevance := relevance + NameScore;
      matchType := NameMatch;
    }
    if Contains(Lower(formula.description), lowerQuery) {
      relevance := relevance + DescriptionScore;
      matchType := DescriptionMatch;
    }
    if TagHit(formula, lowerQuery) {
      relevance := relevance + TagScore;
      matchType := TagsMatch;
    }
    r := SearchResult(formula, matchType, relevance);
  }

  /** The home screen's search state. */
  class HomeScreen {
    /** The catalog the screen searches. */
    const formulas: seq<Formula>
    var searchQuery: string
    var searchResults: seq<SearchResult>

    constructor()
      ensures formulas == Catalog.Formulas
      ensures searchQuery == "" && searchResults == []
    {
      formulas := Catalog.Formulas;
      searchQuery := "";
      searchResults := [];
    }

    /** `handleSearch(query)`: records the query and shows its ranked results. */
    method HandleSearch(query: string)
      modifies this
      ensures searchQuery == query
      ensures searchResults == Search(formulas, query)
    {
      searchQuery := query;
      if |Trim(query)| == 0 {
        searchResults := [];
        return;
      }
      var lowerQuery := Lower(query);
      var results := ScoreAll(formulas, lowerQuery);
      var a := new SearchResult[|results|](k requires 0 <= k < |results| => results[k]);
      assert a[..] == results;
      SortByRelevanceInPlace(a);
      forall v ensures Band(a[..], v) == Band(SortByRelevance(results), v) {
        SortByRelevanceKeepsBands(results, v);
      }
      DescendingBandsDetermine(a[..], SortByRelevance(results));
      var n := if a.Length < MaxResults then a.Length else MaxResults;
      searchResults := a[..n];
    }
  }
}

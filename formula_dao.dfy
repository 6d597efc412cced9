/**
 * The Android app's Room store: the `formulas` table and the queries and
 * writes of its data-access object.
 *
 * The table is `INTEGER PRIMARY KEY AUTOINCREMENT` on `id`, so its rows are
 * read in ascending key order and a record inserted with key 0 gets one more
 * than the largest key the table has ever held (SQLite keeps that number in
 * `sqlite_sequence`). Every `ORDER BY name` query is specified by what SQL
 * promises: the selected rows, each as often as it is stored, sorted by name.
 */
module FormulaDao {
  import opened Options
  import opened Text
  import opened Seqs
  import opened Ordering

  /** One row of `formulas` (the `Formula` entity). */
  datatype Formula = Formula(
    id: int,
    name: string,
    formula: string,
    description: string,
    category: string,
    subcategory: Option<string>,
    concept: string,
    tips: string,
    tricks: string,
    examples: string,
    difficulty: string,
    tags: string,
    isFavorite: bool,
    mathJaxFormula: Option<string>,
    variables: Option<string>,
    units: Option<string>,
    relatedFormulas: Option<string>)

  /** The table: its rows in key order and the `sqlite_sequence` entry for it. */
  datatype Table = Table(rows: seq<Formula>, sequence: int)

  // ---------------------------------------------------------------------------
  // Keys

  function IdBefore(): (Formula, Formula) -> bool
  {
    (a: Formula, b: Formula) => a.id < b.id
  }

  /** Rows in strictly ascending key order, hence with distinct keys. */
  predicate IdsAscending(rows: seq<Formula>)
  {
    SortedBy(rows, IdBefore())
  }

  /**
   * A table as SQLite keeps it: keys ascending, and no key above the sequence
   * number, which never goes below zero.
   */
  predicate WellFormed(t: Table)
  {
    && IdsAscending(t.rows)
    && t.sequence >= 0
    && forall k | 0 <= k < |t.rows| :: t.rows[k].id <= t.sequence
  }

  /** `SELECT * FROM formulas WHERE id = :id`: the row with that key, if any. */
  function FindById(rows: seq<Formula>, id: int): (r: Option<Formula>)
    ensures r.Some? <==> exists k | 0 <= k < |rows| :: rows[k].id == id
    ensures r.Some? ==> r.value in rows && r.value.id == id
  {
    if rows == [] then None
    else if rows[0].id == id then Some(rows[0])
    else
      var r := FindById(rows[1..], id);
      assert forall k | 1 <= k < |rows| :: rows[k] == rows[1..][k - 1];
      r
  }

  /** With distinct keys, the row found for a key is every row with that key. */
  lemma FindByIdUnique(rows: seq<Formula>, k: nat)
    requires IdsAscending(rows) && k < |rows|
    ensures FindById(rows, rows[k].id) == Some(rows[k])
  {
    var r := FindById(rows, rows[k].id);
    var j :| 0 <= j < |rows| && rows[j] == r.value;
  }

  // ---------------------------------------------------------------------------
  // Reads

  function NameLe(): (Formula, Formula) -> bool
  {
    (a: Formula, b: Formula) => StrLe(a.name, b.name)
  }

  /**
   * `SELECT * FROM formulas WHERE p ORDER BY name ASC`: every row satisfying
   * `p`, as often as it is stored, and nothing else, sorted by name.
   */
  function Select(rows: seq<Formula>, p: Formula -> bool): (r: seq<Formula>)
    ensures forall f :: multiset(r)[f] == if p(f) then multiset(rows)[f] else 0
    ensures SortedBy(r, NameLe())
  {
    StrLeOnKeyIsTotalPreorder(NameLe(), (f: Formula) => f.name);
    SortBy(Filter(rows, p), NameLe())
  }

  /** A selection lists exactly the stored rows satisfying the condition. */
  lemma SelectMembers(rows: seq<Formula>, p: Formula -> bool)
    ensures forall f :: f in Select(rows, p) <==> f in rows && p(f)
  {
    var r := Select(rows, p);
    forall f ensures f in r <==> f in rows && p(f) {
      assert f in r <==> multiset(r)[f] > 0;
      assert f in rows <==> multiset(rows)[f] > 0;
    }
  }

  function Everything(): Formula -> bool
  {
    (f: Formula) => true
  }

  /** `getAllFormulas`: every row, sorted by name. */
  function AllFormulas(rows: seq<Formula>): (r: seq<Formula>)
    ensures multiset(r) == multiset(rows)
    ensures SortedBy(r, NameLe())
  {
    var r := Select(rows, Everything());
    assert multiset(r) == multiset(rows) by {
      forall f ensures multiset(r)[f] == multiset(rows)[f] {
      }
    }
    r
  }

  function CategoryIs(category: string): Formula -> bool
  {
    (f: Formula) => f.category == category
  }

  /** `getFormulasByCategory`: the rows of that category, sorted by name. */
  function FormulasByCategory(rows: seq<Formula>, category: string): (r: seq<Formula>)
    ensures forall f :: multiset(r)[f] == if f.category == category then multiset(rows)[f] else 0
    ensures forall f :: f in r <==> f in rows && f.category == category
    ensures SortedBy(r, NameLe())
  {
    SelectMembers(rows, CategoryIs(category));
    Select(rows, CategoryIs(category))
  }

  /**
   * `getFormulasBySubcategory`: the rows whose subcategory is that string,
   * sorted by name; a NULL subcategory equals nothing.
   */
  function FormulasBySubcategory(rows: seq<Formula>, subcategory: string): (r: seq<Formula>)
    ensures forall f :: multiset(r)[f] == if f.subcategory == Some(subcategory) then multiset(rows)[f] else 0
    ensures forall f :: f in r <==> f in rows && f.subcategory == Some(subcategory)
    ensures SortedBy(r, NameLe())
  {
    var p := (f: Formula) => f.subcategory == Some(subcategory);
    SelectMembers(rows, p);
    Select(rows, p)
  }

  /** `getFavoriteFormulas`: the rows flagged as favorites, sorted by name. */
  function FavoriteFormulas(rows: seq<Formula>): (r: seq<Formula>)
    ensures forall f :: multiset(r)[f] == if f.isFavorite then multiset(rows)[f] else 0
    ensures forall f :: f in r <==> f in rows && f.isFavorite
    ensures SortedBy(r, NameLe())
  {
    var p := (f: Formula) => f.isFavorite;
    SelectMembers(rows, p);
    Select(rows, p)
  }

  /** `getFormulasByDifficulty`: the rows of that difficulty, sorted by name. */
  function FormulasByDifficulty(rows: seq<Formula>, difficulty: string): (r: seq<Formula>)
    ensures forall f :: multiset(r)[f] == if f.difficulty == difficulty then multiset(rows)[f] else 0
    ensures forall f :: f in r <==> f in rows && f.difficulty == difficulty
    ensures SortedBy(r, NameLe())
  {
    var p := (f: Formula) => f.difficulty == difficulty;
    SelectMembers(rows, p);
    Select(rows, p)
  }

  /** The `WHERE` clause of `searchFormulas`: `query` within name, description, tags or concept. */
  predicate SearchHit(f: Formula, query: string)
  {
    var pattern := Surround(query);
    Like(f.name, pattern) || Like(f.description, pattern) || Like(f.tags, pattern) || Like(f.concept, pattern)
  }

  function SearchHitFor(query: string): Formula -> bool
  {
    (f: Formula) => SearchHit(f, query)
  }

  /** `searchFormulas`: the rows the `LIKE` clauses accept, sorted by name. */
  function SearchFormulas(rows: seq<Formula>, query: string): (r: seq<Formula>)
    ensures forall f :: multiset(r)[f] == if SearchHit(f, query) then multiset(rows)[f] else 0
    ensures forall f :: f in r <==> f in rows && SearchHit(f, query)
    ensures SortedBy(r, NameLe())
  {
    SelectMembers(rows, SearchHitFor(query));
    Select(rows, SearchHitFor(query))
  }

  /**
   * For a query without `%` or `_`, a row is a search hit exactly when its
   * name, description, tags or concept contains the query, ignoring case.
   */
  lemma SearchHitMeaning(f: Formula, query: string)
    requires HasNoWildcards(query)
    ensures SearchHit(f, query) <==>
      || ContainsIgnoringCase(f.name, query)
      || ContainsIgnoringCase(f.description, query)
      || ContainsIgnoringCase(f.tags, query)
      || ContainsIgnoringCase(f.concept, query)
  {
    LikeSurroundIsContains(f.name, query);
    LikeSurroundIsContains(f.description, query);
    LikeSurroundIsContains(f.tags, query);
    LikeSurroundIsContains(f.concept, query);
  }

  /** The empty query lists every row: `'%%'` matches any text. */
  lemma EmptySearchListsAll(rows: seq<Formula>)
    ensures multiset(SearchFormulas(rows, "")) == multiset(rows)
  {
    forall f ensures SearchHit(f, "") {
      assert Surround("") == "%%";
      LikeAnything(f.name);
      assert Like(f.name, "%") ;
    }
  }

  /** The values of one column of `rows`. */
  function Categories(rows: seq<Formula>): (r: seq<string>)
    ensures forall c :: c in r <==> exists k | 0 <= k < |rows| :: rows[k].category == c
  {
    var r := seq(|rows|, k requires 0 <= k < |rows| => rows[k].category);
    assert forall c | exists k | 0 <= k < |rows| :: rows[k].category == c :: c in r by {
      forall c | exists k | 0 <= k < |rows| :: rows[k].category == c ensures c in r {
        var k :| 0 <= k < |rows| && rows[k].category == c;
        assert r[k] == c;
      }
    }
    r
  }

  /** `getAllCategories`: each category once, ascending. */
  function AllCategories(rows: seq<Formula>): (r: seq<string>)
    ensures StrictlyAscending(r)
    ensures forall c :: c in r <==> exists k | 0 <= k < |rows| :: rows[k].category == c
  {
    SortedDistinct(Categories(rows))
  }

  /** The non-NULL subcategories of the rows of `category`, in key order. */
  function SubcategoriesOf(rows: seq<Formula>, category: string): (r: seq<string>)
    ensures forall s :: s in r <==> exists k | 0 <= k < |rows| :: rows[k].category == category && rows[k].subcategory == Some(s)
  {
    if rows == [] then []
    else
      var rest := SubcategoriesOf(rows[1..], category);
      assert forall k | 1 <= k < |rows| :: rows[k] == rows[1..][k - 1];
      var f := rows[0];
      if f.category == category && f.subcategory.Some? then [f.subcategory.value] + rest else rest
  }

  /** `getSubcategoriesByCategory`: each non-NULL subcategory of that category once, ascending. */
  function SubcategoriesByCategory(rows: seq<Formula>, category: string): (r: seq<string>)
    ensures StrictlyAscending(r)
    ensures forall s :: s in r <==> exists k | 0 <= k < |rows| :: rows[k].category == category && rows[k].subcategory == Some(s)
  {
    SortedDistinct(SubcategoriesOf(rows, category))
  }

  // ---------------------------------------------------------------------------
  // getRelatedFormulas

  /** An integer as SQLite renders it in a `||` concatenation: decimal, '-' when negative. */
  function IntText(n: int): (r: string)
    ensures r != []
    ensures forall i | 0 <= i < |r| :: '0' <= r[i] <= '9' || r[i] == '-'
    decreases if n < 0 then -n + 1 else n
  {
    if n < 0 then "-" + IntText(-n)
    else if n < 10 then [(48 + n) as char]
    else IntText(n / 10) + [(48 + n % 10) as char]
  }

  /** The text of a key holds no LIKE wildcard. */
  lemma IntTextHasNoWildcards(n: int)
    ensures HasNoWildcards(IntText(n))
  {
    var t := IntText(n);
    assert forall i | 0 <= i < |t| :: t[i] != '%' && t[i] != '_';
  }

  /**
   * `getRelatedFormulas` as written: the rows whose `relatedFormulas` text
   * contains the key's digits anywhere, in key order; a NULL list matches nothing.
   */
  predicate RelatedByText(f: Formula, formulaId: int)
  {
    f.relatedFormulas.Some? && Like(f.relatedFormulas.value, Surround(IntText(formulaId)))
  }

  function RelatedFormulas(rows: seq<Formula>, formulaId: int): (r: seq<Formula>)
    ensures IsSubsequence(r, rows)
    ensures forall f :: f in r <==>
      (f in rows && f.relatedFormulas.Some? && ContainsIgnoringCase(f.relatedFormulas.value, IntText(formulaId)))
  {
    IntTextHasNoWildcards(formulaId);
    forall f: Formula | f.relatedFormulas.Some?
      ensures RelatedByText(f, formulaId) <==> ContainsIgnoringCase(f.relatedFormulas.value, IntText(formulaId))
    {
      LikeSurroundIsContains(f.relatedFormulas.value, IntText(formulaId));
    }
    Filter(rows, (f: Formula) => RelatedByText(f, formulaId))
  }

  /** A row listing formula 12 is returned as related to formula 1. */
  lemma RelatedMatchesDigitsInsideAnotherId(f: Formula)
    requires f.relatedFormulas == Some("12")
    ensures RelatedByText(f, 1)
    ensures !ListsRelated(f, 1)
  {
    assert IntText(1) == "1";
    assert Surround("1") == "%1%";
    assert Like("2", "%") by {
      assert Like("", "");
      assert Like("", "%");
    }
    assert Like("12", "1%");
    assert Like("12", "%1%");
    assert SplitOn("", ',') == [""];
    assert SplitOn("2", ',') == ["2"] by {
      assert "2"[1..] == "";
      assert ['2'] + "" == "2";
    }
    assert SplitOn("12", ',') == ["12"] by {
      assert "12"[1..] == "2";
      assert ['1'] + "2" == "12";
    }
    assert StripSpaces("12") == "12";
  }

  /** `s` cut at every `sep`: the pieces between separators, in order. */
  function SplitOn(s: string, sep: char): (r: seq<string>)
    ensures r != []
    ensures forall k | 0 <= k < |r| :: sep !in r[k]
    ensures |r[0]| <= |s| && r[0] == s[..|r[0]|]
    ensures forall k | 0 <= k < |r| :: Contains(s, r[k])
  {
    if s == [] then
      assert OccursAt(s, "", 0);
      [""]
    else
      var rest := SplitOn(s[1..], sep);
      forall k | 0 <= k < |rest| ensures Contains(s, rest[k]) {
        var i: nat :| i <= |s[1..]| && OccursAt(s[1..], rest[k], i);
        assert s[i + 1..i + 1 + |rest[k]|] == s[1..][i..i + |rest[k]|];
        assert OccursAt(s, rest[k], i + 1);
      }
      if s[0] == sep then
        assert OccursAt(s, "", 0);
        [""] + rest
      else
        var head := [s[0]] + rest[0];
        assert head == s[..|head|];
        assert OccursAt(s, head, 0);
        [head] + rest[1..]
  }

  /** `s` without leading and trailing blanks. */
  function StripSpaces(s: string): (r: string)
    ensures Contains(s, r)
    decreases |s|
  {
    if s != [] && s[0] == ' ' then
      var r := StripSpaces(s[1..]);
      var i: nat :| i <= |s[1..]| && OccursAt(s[1..], r, i);
      assert forall m | 0 <= m < |r| :: s[i + 1 + m] == r[m];
      assert OccursAt(s, r, i + 1);
      r
    else if s != [] && s[|s| - 1] == ' ' then
      var r := StripSpaces(s[..|s| - 1]);
      var i: nat :| i <= |s| - 1 && OccursAt(s[..|s| - 1], r, i);
      assert forall m | 0 <= m < |r| :: s[i + m] == r[m];
      assert OccursAt(s, r, i);
      r
    else
      assert OccursAt(s, s, 0);
      s
  }

  /** The corrected relation: one of the comma-separated ids is exactly the key. */
  predicate ListsRelated(f: Formula, formulaId: int)
  {
    f.relatedFormulas.Some?
    && exists k | 0 <= k < |SplitOn(f.relatedFormulas.value, ',')| ::
      StripSpaces(SplitOn(f.relatedFormulas.value, ',')[k]) == IntText(formulaId)
  }

  /**
   * `getRelatedFormulas` as intended: the rows whose related-id list names
   * the key, in key order.
   */
  function ListedRelatedFormulas(rows: seq<Formula>, formulaId: int): (r: seq<Formula>)
    ensures IsSubsequence(r, rows)
    ensures forall f :: f in r <==> f in rows && ListsRelated(f, formulaId)
  {
    Filter(rows, (f: Formula) => ListsRelated(f, formulaId))
  }

  /** Substring containment is transitive. */
  lemma ContainsTransitive(a: string, b: string, c: string)
    requires Contains(a, b) && Contains(b, c)
    ensures Contains(a, c)
  {
    var i: nat :| i <= |a| && OccursAt(a, b, i);
    var j: nat :| j <= |b| && OccursAt(b, c, j);
    assert forall m | 0 <= m < |c| :: a[i + j + m] == b[j + m] == c[m];
    assert a[i + j..i + j + |c|] == c;
    assert OccursAt(a, c, i + j);
  }

  /** A substring is also a substring once both sides are lower-cased. */
  lemma ContainsLower(s: string, q: string)
    requires Contains(s, q)
    ensures ContainsIgnoringCase(s, q)
  {
    var i: nat :| i <= |s| && OccursAt(s, q, i);
    LowerSlice(s, i, i + |q|);
    assert OccursAt(Lower(s), Lower(q), i);
  }

  /**
   * The query as written never misses a related row: every row the corrected
   * relation lists is also returned. What it adds are false matches such as
   * the one in RelatedMatchesDigitsInsideAnotherId.
   */
  lemma {:induction false} ListedRelatedAreFound(rows: seq<Formula>, formulaId: int)
    ensures forall f | f in ListedRelatedFormulas(rows, formulaId) :: f in RelatedFormulas(rows, formulaId)
  {
    forall f | f in ListedRelatedFormulas(rows, formulaId)
      ensures f in RelatedFormulas(rows, formulaId)
    {
      var list := f.relatedFormulas.value;
      var items := SplitOn(list, ',');
      var k :| 0 <= k < |items| && StripSpaces(items[k]) == IntText(formulaId);
      ContainsTransitive(list, items[k], StripSpaces(items[k]));
      ContainsLower(list, IntText(formulaId));
    }
  }

  // ---------------------------------------------------------------------------
  // Writes

  /**
   * REPLACE of `f` into key-ordered rows: a row with the same key is replaced,
   * otherwise `f` is placed in key order.
   */
  function Upsert(rows: seq<Formula>, f: Formula): (r: seq<Formula>)
    requires IdsAscending(rows)
    ensures IdsAscending(r)
    ensures forall g :: g in r <==> g == f || (g in rows && g.id != f.id)
    ensures |r| == if FindById(rows, f.id).Some? then |rows| else |rows| + 1
  {
    if rows == [] then [f]
    else if f.id < rows[0].id then
      assert IdsAscending([f] + rows) && FindById(rows, f.id).None? by {
        PrependSmaller(f, rows);
      }
      [f] + rows
    else if f.id == rows[0].id then
      assert IdsAscending([f] + rows[1..]) && forall g | g in rows[1..] :: g.id != f.id by {
        SortedBySuffix(rows, 1, IdBefore());
        PrependSmaller(rows[0], rows[1..]);
        PrependSmaller(f, rows[1..]);
      }
      assert rows == [rows[0]] + rows[1..];
      [f] + rows[1..]
    else
      var rest := Upsert(rows[1..], f);
      assert rows == [rows[0]] + rows[1..];
      assert IdsAscending([rows[0]] + rest) by {
        PrependSmaller(rows[0], rows[1..]);
        PrependSmaller(rows[0], rest);
      }
      assert FindById(rows, f.id) == FindById(rows[1..], f.id);
      [rows[0]] + rest
  }

  /** A row whose key is below the first of key-ordered rows goes in front of them all. */
  lemma PrependSmaller(f: Formula, rows: seq<Formula>)
    requires IdsAscending(rows)
    ensures (rows == [] || f.id < rows[0].id) ==> IdsAscending([f] + rows)
    ensures IdsAscending([f] + rows) ==> forall g | g in rows :: f.id < g.id
  {
    var s := [f] + rows;
    assert forall k | 0 < k < |s| :: s[k] == rows[k - 1];
    if rows != [] && f.id < rows[0].id {
      assert forall k | 0 < k < |rows| :: IdBefore()(rows[0], rows[k]);
    }
    if IdsAscending(s) {
      forall g | g in rows ensures f.id < g.id {
        var k :| 0 <= k < |rows| && rows[k] == g;
        assert IdBefore()(s[0], s[k + 1]);
      }
    }
  }

  /** The key REPLACE writes: 0 asks for one past the sequence number. */
  function KeyFor(t: Table, f: Formula): int
  {
    if f.id == 0 then t.sequence + 1 else f.id
  }

  /** `insertFormula(f)` on the table. */
  function Inserted(t: Table, f: Formula): (r: Table)
    requires WellFormed(t)
    ensures WellFormed(r)
    ensures FindById(r.rows, KeyFor(t, f)) == Some(f.(id := KeyFor(t, f)))
    ensures forall g :: g in r.rows && g.id != KeyFor(t, f) <==> g in t.rows && g.id != KeyFor(t, f)
    ensures |r.rows| == if FindById(t.rows, KeyFor(t, f)).Some? then |t.rows| else |t.rows| + 1
  {
    var key := KeyFor(t, f);
    var row := f.(id := key);
    var rows := Upsert(t.rows, row);
    var sequence := if key > t.sequence then key else t.sequence;
    assert forall k | 0 <= k < |rows| :: rows[k].id <= sequence by {
      forall k | 0 <= k < |rows| ensures rows[k].id <= sequence {
        assert rows[k] in rows;
      }
    }
    var j :| 0 <= j < |rows| && rows[j] == row;
    FindByIdUnique(rows, j);
    Table(rows, sequence)
  }

  /** A record given a key of 0 always lands in a new row. */
  lemma AutoKeyAddsRow(t: Table, f: Formula)
    requires WellFormed(t) && f.id == 0
    ensures |Inserted(t, f).rows| == |t.rows| + 1
  {
  }

  /** Inserting the same record again changes nothing. */
  lemma {:induction false} ReinsertIsIdempotent(t: Table, f: Formula)
    requires WellFormed(t) && f.id != 0
    ensures Inserted(Inserted(t, f), f) == Inserted(t, f)
  {
    var t1 := Inserted(t, f);
    var t2 := Inserted(t1, f);
    UpsertKeyed(t1.rows, f);
  }

  /** Upserting a row that is already stored under its key leaves the rows as they are. */
  lemma {:induction false} UpsertKeyed(rows: seq<Formula>, f: Formula)
    requires IdsAscending(rows) && f in rows
    ensures Upsert(rows, f) == rows
  {
    if rows[0] == f {
      assert rows == [rows[0]] + rows[1..];
    } else {
      assert IdsAscending(rows[1..]) && f in rows[1..] && rows[0].id < f.id by {
        var k :| 0 <= k < |rows| && rows[k] == f;
        assert IdBefore()(rows[0], rows[k]);
        assert rows[1..][k - 1] == f;
        SortedBySuffix(rows, 1, IdBefore());
      }
      UpsertKeyed(rows[1..], f);
      assert rows == [rows[0]] + rows[1..];
    }
  }

  /** `insertFormulas(fs)`: each record in turn, as `insertFormula` would. */
  function InsertedAll(t: Table, fs: seq<Formula>): (r: Table)
    requires WellFormed(t)
    ensures WellFormed(r)
    ensures |r.rows| <= |t.rows| + |fs|
  {
    if fs == [] then t
    else Inserted(InsertedAll(t, fs[..|fs| - 1]), fs[|fs| - 1])
  }

  /** Records that all ask for an automatic key each land in a row of their own. */
  lemma {:induction false} AutoKeysAddAll(t: Table, fs: seq<Formula>)
    requires WellFormed(t) && forall i | 0 <= i < |fs| :: fs[i].id == 0
    ensures |InsertedAll(t, fs).rows| == |t.rows| + |fs|
  {
    if fs != [] {
      var init := fs[..|fs| - 1];
      assert forall i | 0 <= i < |init| :: init[i] == fs[i];
      AutoKeysAddAll(t, init);
      AutoKeyAddsRow(InsertedAll(t, init), fs[|fs| - 1]);
    }
  }

  /**
   * Inserting a record under another explicit key, or under an automatic one,
   * leaves the row stored under `key` as it was.
   */
  lemma InsertKeepsOtherRow(t: Table, f: Formula, key: int)
    requires WellFormed(t) && FindById(t.rows, key).Some? && f.id != key
    ensures FindById(Inserted(t, f).rows, key) == FindById(t.rows, key)
  {
    var old_ := FindById(t.rows, key).value;
    var r := Inserted(t, f);
    var i :| 0 <= i < |t.rows| && t.rows[i] == old_;
    assert KeyFor(t, f) != key;
    assert old_ in r.rows;
    var j :| 0 <= j < |r.rows| && r.rows[j] == old_;
    FindByIdUnique(r.rows, j);
  }

  /**
   * After `insertFormulas(fs)`, a record with an explicit key that no later
   * record of the list repeats is the row stored under that key.
   */
  lemma {:induction false} InsertedAllStores(t: Table, fs: seq<Formula>, j: nat)
    requires WellFormed(t) && j < |fs| && fs[j].id != 0
    requires forall k | j < k < |fs| :: fs[k].id != fs[j].id
    ensures FindById(InsertedAll(t, fs).rows, fs[j].id) == Some(fs[j])
  {
    var init := fs[..|fs| - 1];
    if j < |fs| - 1 {
      assert forall k | 0 <= k < |init| :: init[k] == fs[k];
      InsertedAllStores(t, init, j);
      InsertKeepsOtherRow(InsertedAll(t, init), fs[|fs| - 1], fs[j].id);
    } else {
      assert fs[j].(id := fs[j].id) == fs[j];
    }
  }

  /** `updateFormula(f)`: the row with `f`'s key becomes `f`; without one nothing changes. */
  function Updated(rows: seq<Formula>, f: Formula): (r: seq<Formula>)
    ensures |r| == |rows|
    ensures forall k | 0 <= k < |rows| :: r[k] == if rows[k].id == f.id then f else rows[k]
  {
    seq(|rows|, k requires 0 <= k < |rows| => if rows[k].id == f.id then f else rows[k])
  }

  /** `deleteFormula(f)`: every row but the one with `f`'s key, in key order. */
  function Deleted(rows: seq<Formula>, f: Formula): (r: seq<Formula>)
    requires IdsAscending(rows)
    ensures IdsAscending(r)
    ensures forall g :: g in r <==> g in rows && g.id != f.id
    ensures FindById(r, f.id).None?
  {
    var r := Filter(rows, (g: Formula) => g.id != f.id);
    SortedBySubsequence(r, rows, IdBefore());
    r
  }

  /** Deleting a row keeps a table well formed under the same sequence number. */
  lemma DeletedWellFormed(t: Table, f: Formula)
    requires WellFormed(t)
    ensures WellFormed(Table(Deleted(t.rows, f), t.sequence))
  {
    var r := Deleted(t.rows, f);
    forall k | 0 <= k < |r| ensures r[k].id <= t.sequence {
      assert r[k] in r;
      var j :| 0 <= j < |t.rows| && t.rows[j] == r[k];
    }
  }

  /** `updateFavoriteStatus(id, isFavorite)`: the flag of the row with that key. */
  function FavoriteSet(rows: seq<Formula>, id: int, isFavorite: bool): (r: seq<Formula>)
    ensures |r| == |rows|
    ensures forall k | 0 <= k < |rows| ::
      r[k] == if rows[k].id == id then rows[k].(isFavorite := isFavorite) else rows[k]
  {
    seq(|rows|, k requires 0 <= k < |rows| =>
      if rows[k].id == id then rows[k].(isFavorite := isFavorite) else rows[k])
  }

  /** Setting one key's flag leaves the keys, and hence their order, as they were. */
  lemma FavoriteSetKeepsKeys(rows: seq<Formula>, id: int, isFavorite: bool)
    requires IdsAscending(rows)
    ensures IdsAscending(FavoriteSet(rows, id, isFavorite))
  {
    var r := FavoriteSet(rows, id, isFavorite);
    assert forall k | 0 <= k < |rows| :: r[k].id == rows[k].id;
  }

  /** Setting one key's flag leaves every row with another key in place. */
  lemma FavoriteSetKeepsOthers(rows: seq<Formula>, id: int, isFavorite: bool, f: Formula)
    requires f.id != id
    ensures f in FavoriteSet(rows, id, isFavorite) <==> f in rows
  {
    var r := FavoriteSet(rows, id, isFavorite);
    if f in r {
      var k :| 0 <= k < |r| && r[k] == f;
      assert rows[k] == f;
    }
    if f in rows {
      var k :| 0 <= k < |rows| && rows[k] == f;
      assert r[k] == f;
    }
  }

  /** After setting a stored key's flag to `b`, some row with that key is flagged exactly when `b`. */
  lemma FavoriteSetFlagsKey(rows: seq<Formula>, id: int, isFavorite: bool)
    requires exists k | 0 <= k < |rows| :: rows[k].id == id
    ensures var r := FavoriteSet(rows, id, isFavorite);
      (exists j | 0 <= j < |r| :: r[j].id == id && r[j].isFavorite) == isFavorite
  {
    var r := FavoriteSet(rows, id, isFavorite);
    var k :| 0 <= k < |rows| && rows[k].id == id;
    assert r[k].id == id && r[k].isFavorite == isFavorite;
  }

  /**
   * After `updateFavoriteStatus(id, b)` on a stored key, the favorites list
   * holds a row with that key exactly when `b`.
   */
  lemma FavoriteSetListsKey(rows: seq<Formula>, id: int, isFavorite: bool)
    requires FindById(rows, id).Some?
    ensures (exists f | f in FavoriteFormulas(FavoriteSet(rows, id, isFavorite)) :: f.id == id) == isFavorite
  {
    var r := FavoriteSet(rows, id, isFavorite);
    assert (exists j | 0 <= j < |r| :: r[j].id == id && r[j].isFavorite) == isFavorite by {
      FavoriteSetFlagsKey(rows, id, isFavorite);
    }
    var listed := FavoriteFormulas(r);
    assert forall f :: f in listed <==> f in r && f.isFavorite;
    if isFavorite {
      var j :| 0 <= j < |r| && r[j].id == id && r[j].isFavorite;
      var f := r[j];
      assert f in r;
      assert f in listed;
    } else {
      forall f | f in listed ensures f.id != id {
        var j :| 0 <= j < |r| && r[j] == f;
      }
    }
  }

  /** `updateFavoriteStatus(id, b)` leaves every row with another key listed or unlisted as before. */
  lemma FavoriteSetListsOthers(rows: seq<Formula>, id: int, isFavorite: bool)
    ensures forall f: Formula | f.id != id ::
      f in FavoriteFormulas(FavoriteSet(rows, id, isFavorite)) <==> f in FavoriteFormulas(rows)
  {
    forall f: Formula | f.id != id
      ensures f in FavoriteFormulas(FavoriteSet(rows, id, isFavorite)) <==> f in FavoriteFormulas(rows)
    {
      FavoriteSetKeepsOthers(rows, id, isFavorite, f);
    }
  }

  /** The `formulas` table as the data-access object sees it. */
  class FormulaTable {
    var rows: seq<Formula>
    var sequence: int

    function State(): Table
      reads this
    {
      Table(rows, sequence)
    }

    ghost predicate Valid()
      reads this
    {
      WellFormed(State())
    }

    /** A freshly created, empty table. */
    constructor()
      ensures Valid() && rows == [] && sequence == 0
    {
      rows := [];
      sequence := 0;
    }

    /** `getFormulaCount`. */
    function FormulaCount(): (r: nat)
      reads this
      ensures r == |rows|
    {
      |rows|
    }

    /** `getFormulaById`. */
    function GetFormulaById(id: int): (r: Option<Formula>)
      reads this
      requires Valid()
      ensures r.Some? <==> exists k | 0 <= k < |rows| :: rows[k].id == id
      ensures forall k | 0 <= k < |rows| && rows[k].id == id :: r == Some(rows[k])
    {
      forall k | 0 <= k < |rows| && rows[k].id == id ensures FindById(rows, id) == Some(rows[k]) {
        FindByIdUnique(rows, k);
      }
      FindById(rows, id)
    }

    /**
     * `insertFormula(f)` with REPLACE: afterwards the row under the written
     * key is `f` with that key, other rows are untouched, and the count grew
     * exactly when the key was new.
     */
    method InsertFormula(f: Formula)
      requires Valid()
      modifies this
      ensures Valid()
      ensures State() == Inserted(old(State()), f)
      ensures GetFormulaById(KeyFor(old(State()), f)) == Some(f.(id := KeyFor(old(State()), f)))
      ensures FormulaCount() == old(FormulaCount()) + (if FindById(old(rows), KeyFor(old(State()), f)).Some? then 0 else 1)
    {
      var t := Inserted(State(), f);
      rows := t.rows;
      sequence := t.sequence;
    }

    /** `insertFormulas(fs)`: REPLACE of every record in list order. */
    method InsertFormulas(fs: seq<Formula>)
      requires Valid()
      modifies this
      ensures Valid()
      ensures State() == InsertedAll(old(State()), fs)
    {
      var i := 0;
      while i < |fs|
        invariant i <= |fs|
        invariant Valid()
        invariant State() == InsertedAll(old(State()), fs[..i])
      {
        assert fs[..i + 1][..i] == fs[..i];
        InsertFormula(fs[i]);
        i := i + 1;
      }
      assert fs[..i] == fs;
    }

    /** `updateFormula(f)`. */
    method UpdateFormula(f: Formula)
      requires Valid()
      modifies this
      ensures Valid()
      ensures rows == Updated(old(rows), f) && sequence == old(sequence)
    {
      var r := Updated(rows, f);
      assert forall k | 0 <= k < |rows| :: r[k].id == rows[k].id;
      rows := r;
    }

    /** `deleteFormula(f)`: the sequence number keeps the deleted key, so it is never handed out again. */
    method DeleteFormula(f: Formula)
      requires Valid()
      modifies this
      ensures Valid()
      ensures rows == Deleted(old(rows), f) && sequence == old(sequence)
      ensures GetFormulaById(f.id).None?
    {
      var r := Deleted(rows, f);
      assert WellFormed(Table(r, sequence)) by {
        DeletedWellFormed(State(), f);
      }
      assert !exists k | 0 <= k < |r| :: r[k].id == f.id;
      rows := r;
    }

    /** `updateFavoriteStatus(id, isFavorite)`: that row's flag, nothing else. */
    method UpdateFavoriteStatus(id: int, isFavorite: bool)
      requires Valid()
      modifies this
      ensures Valid()
      ensures rows == FavoriteSet(old(rows), id, isFavorite) && sequence == old(sequence)
    {
      FavoriteSetKeepsKeys(rows, id, isFavorite);
      rows := FavoriteSet(rows, id, isFavorite);
    }
  }
}

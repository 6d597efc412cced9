/**
 * The second SQLite store of the React Native app (`services/database.ts`): a
 * `formulas` table seeded from the `mathFormulas` catalog, whose rows carry an
 * `is_favorite` flag and a `last_viewed` time, a `user_preferences` key/value
 * table and a `search_history` table.
 *
 * `new Date().toISOString()` is the counter `clock`, which every write that
 * stamps a time advances; ISO-8601 strings of one format order as the times
 * they denote, so `ORDER BY last_viewed DESC` is an order on `clock` values.
 * The `is_favorite` column only ever holds 0 or 1 (its default and the values
 * `toggleFavorite` writes), so it is a `bool` here.
 */
module MathDatabase {
  import opened Options
  import opened Text
  import opened Seqs
  import opened Ordering
  import opened MathCatalog
  import Catalog

  /** A row of the `formulas` table; `tips` and `examples` hold the lists their JSON encodes. */
  datatype MathRow = MathRow(
    id: string,
    name: string,
    formula: string,
    description: string,
    concept: string,
    tips: seq<string>,
    examples: seq<string>,
    category: string,
    difficulty: Catalog.Difficulty,
    isFavorite: bool,
    lastViewed: Option<nat>)

  /** A row of the `search_history` table. */
  datatype HistoryRow = HistoryRow(id: nat, query: string, timestamp: nat)

  /** `getRecentlyViewed` and `getSearchHistory` read at most this many rows. */
  const ReadLimit: nat := 10

  /** The text stored in the `difficulty` column. */
  function DifficultyText(d: Catalog.Difficulty): string
  {
    match d
    case Beginner => "beginner"
    case Intermediate => "intermediate"
    case Advanced => "advanced"
  }

  /** The row `populateFormulas` inserts for a catalog entry: not a favorite, never viewed. */
  function ToRow(f: MathFormula): (r: MathRow)
    ensures r.id == f.id && !r.isFavorite && r.lastViewed.None?
  {
    MathRow(f.id, f.name, f.formula, f.description, f.concept, f.tips, f.examples,
            f.category, f.difficulty, false, None)
  }

  /** The record every query builds from a row. */
  function ToFormula(row: MathRow): (f: MathFormula)
    ensures f.id == row.id && f.name == row.name && f.category == row.category
  {
    MathFormula(row.id, row.name, row.formula, row.description, row.concept,
                row.tips, row.examples, row.category, row.difficulty)
  }

  /** A catalog entry read back from its row is the entry itself. */
  lemma RowRoundTrip(f: MathFormula)
    ensures ToFormula(ToRow(f)) == f
  {
  }

  /** Reading a row back ignores its favorite flag and view time. */
  lemma ToFormulaIgnoresState(row: MathRow, favorite: bool, viewed: Option<nat>)
    ensures ToFormula(row.(isFavorite := favorite, lastViewed := viewed)) == ToFormula(row)
  {
  }

  function ToFormulas(rows: seq<MathRow>): (r: seq<MathFormula>)
    ensures |r| == |rows|
    ensures forall i | 0 <= i < |rows| :: r[i] == ToFormula(rows[i])
  {
    seq(|rows|, i requires 0 <= i < |rows| => ToFormula(rows[i]))
  }

  function SeedRows(seed: seq<MathFormula>): (r: seq<MathRow>)
    ensures |r| == |seed|
    ensures forall i | 0 <= i < |seed| :: r[i] == ToRow(seed[i])
  {
    seq(|seed|, i requires 0 <= i < |seed| => ToRow(seed[i]))
  }

  predicate KeysDistinct(rows: seq<MathRow>)
  {
    forall i, j | 0 <= i < j < |rows| :: rows[i].id != rows[j].id
  }

  predicate IdsDistinct(seed: seq<MathFormula>)
  {
    forall i, j | 0 <= i < j < |seed| :: seed[i].id != seed[j].id
  }

  /** `SELECT * FROM formulas WHERE id = ?`. */
  function FindRow(rows: seq<MathRow>, id: string): (r: Option<MathRow>)
    ensures r.None? <==> forall k | 0 <= k < |rows| :: rows[k].id != id
    ensures r.Some? ==> r.value in rows && r.value.id == id
  {
    if rows == [] then None
    else if rows[0].id == id then Some(rows[0])
    else FindRow(rows[1..], id)
  }

  // ---------------------------------------------------------------------------
  // Orders

  /** `ORDER BY category, name`. */
  function CategoryNameLe(): (MathFormula, MathFormula) -> bool
  {
    (a: MathFormula, b: MathFormula) =>
      StrLt(a.category, b.category) || (a.category == b.category && StrLe(a.name, b.name))
  }

  lemma CategoryNameLeIsTotalPreorder()
    ensures TotalPreorder(CategoryNameLe())
  {
    var le := CategoryNameLe();
    forall a: MathFormula, b: MathFormula ensures le(a, b) || le(b, a) {
      StrLeTotal(a.category, b.category);
      StrLeTotal(a.name, b.name);
    }
    forall a: MathFormula, b: MathFormula, c: MathFormula | le(a, b) && le(b, c) ensures le(a, c) {
      if a.category == b.category && b.category == c.category {
        StrLeTransitive(a.name, b.name, c.name);
      } else {
        StrLeTotal(a.category, a.category);
        StrLeTotal(b.category, b.category);
        StrLeTransitive(a.category, b.category, c.category);
        if a.category == c.category {
          StrLeAntisymmetric(a.category, b.category);
        }
      }
    }
  }

  /** `ORDER BY name`. */
  function NameLe(): (MathFormula, MathFormula) -> bool
  {
    (a: MathFormula, b: MathFormula) => StrLe(a.name, b.name)
  }

  /** `ORDER BY last_viewed DESC`. */
  function ViewedLater(): (MathRow, MathRow) -> bool
  {
    (a: MathRow, b: MathRow) => ViewKey(a) >= ViewKey(b)
  }

  function ViewKey(row: MathRow): nat
  {
    if row.lastViewed.Some? then row.lastViewed.value else 0
  }

  lemma ViewedLaterIsTotalPreorder()
    ensures TotalPreorder(ViewedLater())
  {
  }

  function ByCategoryName(rows: seq<MathRow>): (r: seq<MathFormula>)
    ensures multiset(r) == multiset(ToFormulas(rows))
    ensures SortedBy(r, CategoryNameLe())
  {
    CategoryNameLeIsTotalPreorder();
    SortBy(ToFormulas(rows), CategoryNameLe())
  }

  function ByName(rows: seq<MathRow>): (r: seq<MathFormula>)
    ensures multiset(r) == multiset(ToFormulas(rows))
    ensures SortedBy(r, NameLe())
  {
    StrLeOnKeyIsTotalPreorder(NameLe(), (f: MathFormula) => f.name);
    SortBy(ToFormulas(rows), NameLe())
  }

  function Viewed(): MathRow -> bool
  {
    (row: MathRow) => row.lastViewed.Some?
  }

  function Favorite(): MathRow -> bool
  {
    (row: MathRow) => row.isFavorite
  }

  function InCategory(category: string): MathRow -> bool
  {
    (row: MathRow) => row.category == category
  }

  /** The viewed rows, latest view first. */
  function LatestFirst(rows: seq<MathRow>): (r: seq<MathRow>)
    ensures multiset(r) == multiset(Filter(rows, Viewed()))
    ensures SortedBy(r, ViewedLater())
  {
    ViewedLaterIsTotalPreorder();
    SortBy(Filter(rows, Viewed()), ViewedLater())
  }

  /** A row viewed after every other row heads the latest-first list. */
  lemma LatestViewFirst(rows: seq<MathRow>, k: nat, t: nat)
    requires k < |rows| && rows[k].lastViewed == Some(t)
    requires forall j | 0 <= j < |rows| && j != k :: rows[j].lastViewed.None? || rows[j].lastViewed.value < t
    ensures LatestFirst(rows) != [] && LatestFirst(rows)[0] == rows[k]
  {
    var s := LatestFirst(rows);
    assert rows[k] in Filter(rows, Viewed());
    assert rows[k] in multiset(s);
    var p :| 0 <= p < |s| && s[p] == rows[k];
    assert s[0] in multiset(Filter(rows, Viewed()));
    assert s[0] in rows && s[0].lastViewed.Some?;
    var j :| 0 <= j < |rows| && rows[j] == s[0];
    if p > 0 {
      assert ViewedLater()(s[0], s[p]);
    }
  }

  /** The WHERE clause of `searchFormulas` for the pattern `'%' || query || '%'`. */
  function SearchHitFor(query: string): MathRow -> bool
  {
    (row: MathRow) =>
      var pattern := Surround(query);
      Like(row.name, pattern) || Like(row.description, pattern)
      || Like(row.concept, pattern) || Like(row.category, pattern)
  }

  /**
   * For a query without LIKE wildcards the SQL search selects exactly the
   * rows whose record the in-memory catalog search keeps.
   */
  lemma SearchAgreesWithCatalogSearch(row: MathRow, query: string)
    requires HasNoWildcards(query)
    ensures SearchHitFor(query)(row) <==> MatchesLowered(ToFormula(row), Lower(query))
  {
    LikeSurroundIsContains(row.name, query);
    LikeSurroundIsContains(row.description, query);
    LikeSurroundIsContains(row.concept, query);
    LikeSurroundIsContains(row.category, query);
  }

  /** `UPDATE formulas SET is_favorite = ? WHERE id = ?`. */
  function SetFavorite(rows: seq<MathRow>, id: string, value: bool): (r: seq<MathRow>)
    ensures |r| == |rows|
    ensures forall i | 0 <= i < |rows| ::
      r[i] == if rows[i].id == id then rows[i].(isFavorite := value) else rows[i]
  {
    seq(|rows|, i requires 0 <= i < |rows| =>
      if rows[i].id == id then rows[i].(isFavorite := value) else rows[i])
  }

  /** `UPDATE formulas SET last_viewed = ? WHERE id = ?`. */
  function SetLastViewed(rows: seq<MathRow>, id: string, t: nat): (r: seq<MathRow>)
    ensures |r| == |rows|
    ensures forall i | 0 <= i < |rows| ::
      r[i] == if rows[i].id == id then rows[i].(lastViewed := Some(t)) else rows[i]
  {
    seq(|rows|, i requires 0 <= i < |rows| =>
      if rows[i].id == id then rows[i].(lastViewed := Some(t)) else rows[i])
  }

  /** The table after `toggleFavorite(id)`: an unknown id is written as a favorite, which updates no row. */
  function Toggled(rows: seq<MathRow>, id: string): seq<MathRow>
  {
    var found := FindRow(rows, id);
    SetFavorite(rows, id, if found.Some? then !found.value.isFavorite else true)
  }

  /**
   * Toggling flips the row of a known id and changes nothing else; an
   * unknown id changes no row, and two toggles restore the table.
   */
  lemma ToggledTwice(rows: seq<MathRow>, id: string)
    requires KeysDistinct(rows)
    ensures forall i | 0 <= i < |rows| ::
      Toggled(rows, id)[i].isFavorite == (if rows[i].id == id then !rows[i].isFavorite else rows[i].isFavorite)
    ensures FindRow(rows, id).None? ==> Toggled(rows, id) == rows
    ensures Toggled(Toggled(rows, id), id) == rows
  {
    ToggledFlips(rows, id);
    var once := Toggled(rows, id);
    assert KeysDistinct(once) by {
      assert forall i | 0 <= i < |rows| :: once[i].id == rows[i].id;
    }
    ToggledFlips(once, id);
    assert Toggled(once, id) == rows;
  }

  /** With distinct keys, toggling rewrites the matching row with its flag flipped and keeps the others. */
  lemma ToggledFlips(rows: seq<MathRow>, id: string)
    requires KeysDistinct(rows)
    ensures |Toggled(rows, id)| == |rows|
    ensures forall i | 0 <= i < |rows| ::
      Toggled(rows, id)[i] == if rows[i].id == id then rows[i].(isFavorite := !rows[i].isFavorite) else rows[i]
  {
    var found := FindRow(rows, id);
    if found.Some? {
      var k :| 0 <= k < |rows| && rows[k] == found.value;
      assert forall i | 0 <= i < |rows| && rows[i].id == id :: rows[i] == found.value;
    }
  }

  /**
   * The distinct queries of the history. A repeated query is placed here by
   * its latest search; SQLite may use any of its timestamps, so contracts only
   * state what holds for every choice.
   */
  function RecentQueries(history: seq<HistoryRow>): (r: seq<string>)
    ensures forall i, j | 0 <= i < j < |r| :: r[i] != r[j]
    ensures forall q :: q in r <==> exists k | 0 <= k < |history| :: history[k].query == q
  {
    var newest := Reversed(history);
    var queries := seq(|newest|, i requires 0 <= i < |newest| => newest[i].query);
    assert forall q :: q in queries <==> exists k | 0 <= k < |history| :: history[k].query == q by {
      forall q | q in queries ensures exists k | 0 <= k < |history| :: history[k].query == q {
        var i :| 0 <= i < |queries| && queries[i] == q;
        assert history[|history| - 1 - i].query == q;
      }
      forall q | exists k | 0 <= k < |history| :: history[k].query == q ensures q in queries {
        var k :| 0 <= k < |history| && history[k].query == q;
        assert queries[|history| - 1 - k] == q;
      }
    }
    Dedup(queries)
  }

  /**
   * A query searched for the first time heads the history. This holds
   * whichever of a repeated query's timestamps `DISTINCT` keeps, since the new
   * query has only the one, newest, timestamp.
   */
  lemma NewestQueryFirst(history: seq<HistoryRow>, row: HistoryRow)
    ensures (forall k | 0 <= k < |history| :: history[k].query != row.query) ==>
      RecentQueries(history + [row]) != [] && RecentQueries(history + [row])[0] == row.query
  {
    var h := history + [row];
    var newest := Reversed(h);
    var queries := seq(|newest|, i requires 0 <= i < |newest| => newest[i].query);
    assert queries[0] == row.query;
    DedupHead(queries);
  }

  /** The app's second SQLite connection and its tables. */
  class DatabaseService {
    /** The catalog `populateFormulas` copies into an empty table. */
    const seed: seq<MathFormula>
    /** `db !== null`. */
    var isOpen: bool
    var formulas: seq<MathRow>
    var preferences: map<string, string>
    var history: seq<HistoryRow>
    /** The next `new Date()`; every stamped write advances it. */
    var clock: nat
    var nextHistoryId: nat

    ghost predicate Valid()
      reads this
    {
      && IdsDistinct(seed)
      && KeysDistinct(formulas)
      && (forall k | 0 <= k < |formulas| :: formulas[k].lastViewed.None? || formulas[k].lastViewed.value < clock)
      && (forall k | 0 <= k < |history| :: history[k].id < nextHistoryId && history[k].timestamp < clock)
    }

    /** A service over a fresh database file, before `initDatabase`. */
    constructor()
      ensures Valid() && !isOpen
      ensures seed == MathCatalog.MathFormulas
      ensures formulas == [] && preferences == map[] && history == []
    {
      seed := MathCatalog.MathFormulas;
      isOpen := false;
      formulas := [];
      preferences := map[];
      history := [];
      clock := 0;
      nextHistoryId := 0;
      MathCatalog.FormulaIdsDistinct();
    }

    /** `initDatabase`: opens the database and seeds an empty `formulas` table; a failed open changes nothing. */
    method InitDatabase(openSucceeds: bool)
      requires Valid()
      modifies this
      ensures Valid()
      ensures !openSucceeds ==> isOpen == old(isOpen) && formulas == old(formulas)
      ensures openSucceeds ==> isOpen
      ensures openSucceeds && old(formulas) == [] ==> formulas == SeedRows(seed)
      ensures old(formulas) != [] ==> formulas == old(formulas)
      ensures preferences == old(preferences) && history == old(history)
    {
      if !openSucceeds {
        return;
      }
      isOpen := true;
      PopulateFormulas();
    }

    /** `populateFormulas`: when the table holds no row, inserts the catalog row by row. */
    method PopulateFormulas()
      requires Valid()
      modifies this
      ensures Valid()
      ensures old(isOpen) && old(formulas) == [] ==> formulas == SeedRows(seed)
      ensures !(old(isOpen) && old(formulas) == []) ==> formulas == old(formulas)
      ensures isOpen == old(isOpen) && preferences == old(preferences) && history == old(history)
      ensures clock == old(clock) && nextHistoryId == old(nextHistoryId)
    {
      if !isOpen {
        return;
      }
      if |formulas| > 0 {
        return;
      }
      var i := 0;
      while i < |seed|
        invariant 0 <= i <= |seed|
        invariant formulas == SeedRows(seed[..i])
        invariant Valid()
        invariant isOpen == old(isOpen) && preferences == old(preferences) && history == old(history)
        invariant clock == old(clock) && nextHistoryId == old(nextHistoryId)
      {
        assert forall k | 0 <= k < i :: formulas[k].id == seed[k].id != seed[i].id;
        formulas := formulas + [ToRow(seed[i])];
        i := i + 1;
        assert seed[..i] == seed[..i - 1] + [seed[i - 1]];
      }
      assert seed[..i] == seed;
    }

    /** `getAllFormulas`: every row, by category and then name. */
    function GetAllFormulas(): (r: seq<MathFormula>)
      reads this
      ensures !isOpen ==> r == []
      ensures isOpen ==> multiset(r) == multiset(ToFormulas(formulas)) && SortedBy(r, CategoryNameLe())
    {
      if !isOpen then [] else ByCategoryName(formulas)
    }

    /** `getFormulasByCategory`: the rows of one category, by name. */
    function GetFormulasByCategory(category: string): (r: seq<MathFormula>)
      reads this
      ensures !isOpen ==> r == []
      ensures isOpen ==> SortedBy(r, NameLe())
      ensures isOpen ==> multiset(r) == multiset(ToFormulas(Filter(formulas, InCategory(category))))
    {
      if !isOpen then [] else ByName(Filter(formulas, InCategory(category)))
    }

    /** The rows `searchFormulas` selects, by category and then name. */
    function SearchResults(query: string): (r: seq<MathFormula>)
      reads this
      ensures !isOpen ==> r == []
      ensures isOpen ==> SortedBy(r, CategoryNameLe())
      ensures isOpen ==> multiset(r) == multiset(ToFormulas(Filter(formulas, SearchHitFor(query))))
    {
      if !isOpen then [] else ByCategoryName(Filter(formulas, SearchHitFor(query)))
    }

    /** `searchFormulas`: the LIKE search, which also records the query in the history. */
    method SearchFormulas(query: string) returns (r: seq<MathFormula>)
      requires Valid()
      modifies this
      ensures Valid()
      ensures r == old(SearchResults(query))
      ensures old(isOpen) ==> history == old(history) + [HistoryRow(old(nextHistoryId), query, old(clock))]
      ensures !old(isOpen) ==> unchanged(this)
      ensures isOpen == old(isOpen) && formulas == old(formulas) && preferences == old(preferences)
    {
      if !isOpen {
        return [];
      }
      r := ByCategoryName(Filter(formulas, SearchHitFor(query)));
      AddSearchHistory(query);
    }

    /**
     * `getFormulaById`: the record of the row with that key, or null; a found
     * row gets the current time as its `last_viewed`, and no other row changes.
     */
    method GetFormulaById(id: string) returns (r: Option<MathFormula>)
      requires Valid()
      modifies this
      ensures Valid()
      ensures !old(isOpen) || FindRow(old(formulas), id).None? ==> r.None? && unchanged(this)
      ensures old(isOpen) && FindRow(old(formulas), id).Some? ==>
        && r == Some(ToFormula(FindRow(old(formulas), id).value))
        && formulas == SetLastViewed(old(formulas), id, old(clock))
        && clock == old(clock) + 1
      ensures isOpen == old(isOpen) && preferences == old(preferences) && history == old(history)
    {
      if !isOpen {
        return None;
      }
      var found := FindRow(formulas, id);
      if found.None? {
        return None;
      }
      var stamped := SetLastViewed(formulas, id, clock);
      assert && KeysDistinct(stamped)
        && (forall k | 0 <= k < |formulas| :: stamped[k].lastViewed.None? || stamped[k].lastViewed.value < clock + 1) by {
        ViewedFormulaHeadsRecent(formulas, id, clock);
      }
      formulas := stamped;
      clock := clock + 1;
      r := Some(ToFormula(found.value));
    }

    /** `toggleFavorite`: flips the flag of the row with that id. */
    method ToggleFavorite(id: string)
      requires Valid()
      modifies this
      ensures Valid()
      ensures !old(isOpen) ==> unchanged(this)
      ensures old(isOpen) ==> formulas == Toggled(old(formulas), id)
      ensures isOpen == old(isOpen) && preferences == old(preferences) && history == old(history)
      ensures clock == old(clock)
    {
      if !isOpen {
        return;
      }
      var found := FindRow(formulas, id);
      var newValue := if found.Some? then !found.value.isFavorite else true;
      var updated := SetFavorite(formulas, id, newValue);
      assert forall k | 0 <= k < |formulas| :: updated[k].id == formulas[k].id;
      formulas := updated;
    }

    /** `getFavorites`: the rows flagged as favorites, by category and then name. */
    function GetFavorites(): (r: seq<MathFormula>)
      reads this
      ensures !isOpen ==> r == []
      ensures isOpen ==> SortedBy(r, CategoryNameLe())
      ensures isOpen ==> multiset(r) == multiset(ToFormulas(Filter(formulas, Favorite())))
    {
      if !isOpen then [] else ByCategoryName(Filter(formulas, Favorite()))
    }

    /** `getRecentlyViewed`: at most ten viewed rows, latest view first. */
    function GetRecentlyViewed(): (r: seq<MathFormula>)
      reads this
      ensures !isOpen ==> r == []
      ensures |r| <= ReadLimit
      ensures isOpen ==> |r| == if |LatestFirst(formulas)| <= ReadLimit then |LatestFirst(formulas)| else ReadLimit
      ensures isOpen ==> forall i | 0 <= i < |r| :: r[i] == ToFormula(LatestFirst(formulas)[i])
    {
      if !isOpen then []
      else
        var latest := LatestFirst(formulas);
        var n := if |latest| <= ReadLimit then |latest| else ReadLimit;
        ToFormulas(latest[..n])
    }

    /** `addSearchHistory`: appends the query with the current time. */
    method AddSearchHistory(query: string)
      requires Valid()
      modifies this
      ensures Valid()
      ensures !old(isOpen) ==> unchanged(this)
      ensures old(isOpen) ==> history == old(history) + [HistoryRow(old(nextHistoryId), query, old(clock))]
      ensures old(isOpen) && (forall k | 0 <= k < |old(history)| :: old(history)[k].query != query) ==>
        GetSearchHistory() != [] && GetSearchHistory()[0] == query
      ensures isOpen == old(isOpen) && formulas == old(formulas) && preferences == old(preferences)
    {
      if !isOpen {
        return;
      }
      var row := HistoryRow(nextHistoryId, query, clock);
      NewestQueryFirst(history, row);
      history := history + [row];
      nextHistoryId := nextHistoryId + 1;
      clock := clock + 1;
    }

    /** `getSearchHistory`: at most ten distinct logged queries, ordered by one timestamp of each. */
    function GetSearchHistory(): (r: seq<string>)
      reads this
      ensures !isOpen ==> r == []
      ensures |r| <= ReadLimit
      ensures forall i, j | 0 <= i < j < |r| :: r[i] != r[j]
      ensures forall q | q in r :: exists k | 0 <= k < |history| :: history[k].query == q
      ensures isOpen ==> |r| == ReadLimit || forall k | 0 <= k < |history| :: history[k].query in r
    {
      if !isOpen then []
      else
        var queries := RecentQueries(history);
        var r := if |queries| <= ReadLimit then queries else queries[..ReadLimit];
        assert forall q | q in r :: q in queries;
        r
    }

    /** `clearSearchHistory`: deletes every history row. */
    method ClearSearchHistory()
      requires Valid()
      modifies this
      ensures Valid()
      ensures !old(isOpen) ==> unchanged(this)
      ensures old(isOpen) ==> history == [] && GetSearchHistory() == []
      ensures isOpen == old(isOpen) && formulas == old(formulas) && preferences == old(preferences)
    {
      if !isOpen {
        return;
      }
      history := [];
    }

    /** `getUserPreference`: the stored value, or null for an unset key. */
    function GetUserPreference(key: string): (r: Option<string>)
      reads this
      ensures r.Some? <==> isOpen && key in preferences
      ensures r.Some? ==> r.value == preferences[key]
    {
      if isOpen && key in preferences then Some(preferences[key]) else None
    }

    /** `setUserPreference`: `INSERT OR REPLACE` on the key. */
    method SetUserPreference(key: string, value: string)
      requires Valid()
      modifies this
      ensures Valid()
      ensures !old(isOpen) ==> unchanged(this)
      ensures old(isOpen) ==> GetUserPreference(key) == Some(value)
      ensures forall other | other != key :: GetUserPreference(other) == old(GetUserPreference(other))
      ensures isOpen == old(isOpen) && formulas == old(formulas) && history == old(history)
    {
      if !isOpen {
        return;
      }
      preferences := preferences[key := value];
    }

    /** `getCategories`: each category once, ascending. */
    function GetCategories(): (r: seq<string>)
      reads this
      ensures !isOpen ==> r == []
      ensures StrictlyAscending(r)
      ensures isOpen ==> forall c :: c in r <==> exists k | 0 <= k < |formulas| :: formulas[k].category == c
    {
      if !isOpen then []
      else
        var rows := formulas;
        var cs := seq(|rows|, k requires 0 <= k < |rows| => rows[k].category);
        assert forall c :: c in cs <==> exists k | 0 <= k < |formulas| :: formulas[k].category == c by {
          forall c | exists k | 0 <= k < |formulas| :: formulas[k].category == c ensures c in cs {
            var k :| 0 <= k < |formulas| && formulas[k].category == c;
            assert cs[k] == c;
          }
        }
        SortedDistinct(cs)
    }

    /** `getDifficultyLevels`: each difficulty text once, ascending. */
    function GetDifficultyLevels(): (r: seq<string>)
      reads this
      ensures !isOpen ==> r == []
      ensures StrictlyAscending(r)
      ensures isOpen ==> forall t :: t in r <==> exists k | 0 <= k < |formulas| :: DifficultyText(formulas[k].difficulty) == t
    {
      if !isOpen then []
      else
        var rows := formulas;
        var ds := seq(|rows|, k requires 0 <= k < |rows| => DifficultyText(rows[k].difficulty));
        assert forall t :: t in ds <==> exists k | 0 <= k < |formulas| :: DifficultyText(formulas[k].difficulty) == t by {
          forall t | exists k | 0 <= k < |formulas| :: DifficultyText(formulas[k].difficulty) == t ensures t in ds {
            var k :| 0 <= k < |formulas| && DifficultyText(formulas[k].difficulty) == t;
            assert ds[k] == t;
          }
        }
        SortedDistinct(ds)
    }
  }

  /**
   * After `getFormulaById` finds a row, `getRecentlyViewed` lists that
   * formula first: its view is the latest.
   */
  lemma ViewedFormulaHeadsRecent(rows: seq<MathRow>, id: string, clock: nat)
    requires KeysDistinct(rows)
    requires forall k | 0 <= k < |rows| :: rows[k].lastViewed.None? || rows[k].lastViewed.value < clock
    requires FindRow(rows, id).Some?
    ensures KeysDistinct(SetLastViewed(rows, id, clock))
    ensures forall k | 0 <= k < |rows| ::
      SetLastViewed(rows, id, clock)[k].lastViewed.None? || SetLastViewed(rows, id, clock)[k].lastViewed.value < clock + 1
    ensures LatestFirst(SetLastViewed(rows, id, clock)) != []
    ensures ToFormula(LatestFirst(SetLastViewed(rows, id, clock))[0]) == ToFormula(FindRow(rows, id).value)
  {
    var stamped := SetLastViewed(rows, id, clock);
    assert forall k | 0 <= k < |rows| :: stamped[k].id == rows[k].id;
    var k :| 0 <= k < |rows| && rows[k] == FindRow(rows, id).value;
    assert forall j | 0 <= j < |rows| && j != k :: rows[j].id != id;
    LatestViewFirst(stamped, k, clock);
  }
}

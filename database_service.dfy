/**
 * The React Native app's SQLite store, `DatabaseService`: a `formulas` table
 * seeded once from the catalog, a `favorites` table and a `recent` table.
 *
 * Each table is the sequence of its rows in insertion order. SQLite's
 * CURRENT_TIMESTAMP is the counter `clock`, which every insertion advances, so
 * a later row always carries a later `created_at`/`viewed_at`; AUTOINCREMENT
 * keys come from `nextFavoriteId` and `nextRecentId`. The list columns hold
 * `JSON.stringify` text: the row keeps the list it encodes (None for NULL),
 * and the `tags LIKE` search runs over `JsonArray`, the text itself.
 */
module DatabaseService {
  import opened Options
  import opened Text
  import opened Seqs
  import opened Ordering
  import opened Catalog

  /** A row of the `formulas` table. */
  datatype FormulaRow = FormulaRow(
    id: string,
    name: string,
    formula: string,
    description: string,
    category: string,
    subcategory: Option<string>,
    difficulty: Difficulty,
    tips: Option<seq<string>>,
    examples: Option<seq<Example>>,
    concepts: Option<seq<string>>,
    tags: Option<seq<string>>)

  /** A row of the `favorites` table. */
  datatype FavoriteRow = FavoriteRow(id: nat, formulaId: string, createdAt: nat)

  /** A row of the `recent` table. */
  datatype RecentRow = RecentRow(id: nat, formulaId: string, viewedAt: nat)

  /** `addToRecent` keeps this many rows. */
  const RecentCap: nat := 50
  /** `getRecent` reads at most this many formulas. */
  const RecentReadLimit: nat := 20

  // ---------------------------------------------------------------------------
  // JSON text of a list of strings, as `JSON.stringify` writes it

  /** Characters `JSON.stringify` must escape inside a string. */
  predicate NeedsEscape(c: char)
  {
    c == '"' || c == '\\' || c as int < 0x20
  }

  function HexDigit(n: nat): char
    requires n < 16
  {
    if n < 10 then ('0' as int + n) as char else ('a' as int + n - 10) as char
  }

  function JsonEscapeChar(c: char): (r: string)
    ensures !NeedsEscape(c) ==> r == [c]
    ensures NeedsEscape(c) ==> |r| >= 2 && r[0] == '\\'
  {
    if c == '"' then "\\\""
    else if c == '\\' then "\\\\"
    else if c == '\n' then "\\n"
    else if c == '\r' then "\\r"
    else if c == '\t' then "\\t"
    else if c as int == 8 then "\\b"
    else if c as int == 12 then "\\f"
    else if c as int < 0x20 then "\\u00" + [HexDigit(c as int / 16), HexDigit(c as int % 16)]
    else [c]
  }

  /** The body of a JSON string literal for `s`. */
  function JsonEscape(s: string): string
  {
    if s == [] then [] else JsonEscapeChar(s[0]) + JsonEscape(s[1..])
  }

  function JsonString(s: string): string
  {
    "\"" + JsonEscape(s) + "\""
  }

  function JsonItems(ts: seq<string>): string
  {
    if ts == [] then []
    else if |ts| == 1 then JsonString(ts[0])
    else JsonString(ts[0]) + "," + JsonItems(ts[1..])
  }

  /** `JSON.stringify(ts)` for a list of strings. */
  function JsonArray(ts: seq<string>): string
  {
    "[" + JsonItems(ts) + "]"
  }

  /** Escaping works character by character. */
  lemma {:induction false} JsonEscapeAppend(a: string, b: string)
    ensures JsonEscape(a + b) == JsonEscape(a) + JsonEscape(b)
  {
    if a != [] {
      assert (a + b)[1..] == a[1..] + b;
      JsonEscapeAppend(a[1..], b);
    } else {
      assert a + b == b;
    }
  }

  /** Text with nothing to escape is written as it is. */
  lemma {:induction false} JsonEscapeIdentity(s: string)
    requires forall i | 0 <= i < |s| :: !NeedsEscape(s[i])
    ensures JsonEscape(s) == s
  {
    if s != [] {
      JsonEscapeIdentity(s[1..]);
      assert s == [s[0]] + s[1..];
    }
  }

  /** `m` occurs in `s` at `i`, and `q` in `m`: then `q` occurs in `s`. */
  lemma ContainsWithin(s: string, m: string, i: nat, q: string)
    requires OccursAt(s, m, i) && Contains(m, q)
    ensures Contains(s, q)
  {
    var j: nat :| j <= |m| && OccursAt(m, q, j);
    assert forall k | 0 <= k < |m| :: s[i + k] == m[k] by {
      assert s[i..i + |m|] == m;
    }
    assert forall k | 0 <= k < |q| :: s[i + j + k] == m[j + k] == q[k];
    assert OccursAt(s, q, i + j);
  }

  /** An occurrence survives lower-casing both sides. */
  lemma OccursAtLower(s: string, q: string, i: nat)
    requires OccursAt(s, q, i)
    ensures OccursAt(Lower(s), Lower(q), i)
  {
    LowerSlice(s, i, i + |q|);
  }

  /** An occurrence in `b` is one in `a + b`, shifted past `a`. */
  lemma OccursAfterPrefix(a: string, b: string, q: string, j: nat)
    requires OccursAt(b, q, j)
    ensures OccursAt(a + b, q, |a| + j)
  {
    assert forall k | |a| + j <= k < |a| + j + |q| :: (a + b)[k] == b[k - |a|];
  }

  /** The JSON text of a list holds the JSON string of each element. */
  lemma {:induction false} JsonItemsHoldElement(ts: seq<string>, k: nat)
    requires k < |ts|
    ensures Contains(JsonItems(ts), JsonString(ts[k]))
  {
    var e := JsonString(ts[k]);
    if k == 0 {
      if |ts| == 1 {
        assert JsonItems(ts)[0..|e|] == e;
      } else {
        assert JsonItems(ts)[0..|e|] == e;
      }
      assert OccursAt(JsonItems(ts), e, 0);
    } else {
      JsonItemsHoldElement(ts[1..], k - 1);
      var rest := JsonItems(ts[1..]);
      var head := JsonString(ts[0]) + ",";
      assert JsonItems(ts) == head + rest;
      var j: nat :| j <= |rest| && OccursAt(rest, e, j);
      OccursAfterPrefix(head, rest, e, j);
    }
  }

  /**
   * A tag that contains the query, ignoring case, makes `tags LIKE '%q%'`
   * hold, for a query free of LIKE wildcards and of characters JSON escapes.
   */
  lemma TagMatchIsFound(tags: seq<string>, k: nat, q: string)
    requires k < |tags|
    requires HasNoWildcards(q)
    requires forall i | 0 <= i < |q| :: !NeedsEscape(q[i])
    requires ContainsIgnoringCase(tags[k], q)
    ensures Like(JsonArray(tags), Surround(q))
  {
    var t := tags[k];
    var i: nat :| i <= |Lower(t)| && OccursAt(Lower(t), Lower(q), i);
    var pre, mid, post := t[..i], t[i..i + |q|], t[i + |q|..];
    assert t == pre + mid + post;
    LowerSlice(t, i, i + |q|);
    assert Lower(mid) == Lower(q);
    forall j | 0 <= j < |mid| ensures !NeedsEscape(mid[j]) {
      assert LowerChar(mid[j]) == Lower(mid)[j] == Lower(q)[j] == LowerChar(q[j]);
    }
    JsonEscapeIdentity(mid);
    JsonEscapeAppend(pre + mid, post);
    JsonEscapeAppend(pre, mid);
    var et := JsonEscape(t);
    assert et == JsonEscape(pre) + mid + JsonEscape(post);
    assert et[|JsonEscape(pre)|..|JsonEscape(pre)| + |mid|] == mid;
    assert OccursAt(et, mid, |JsonEscape(pre)|);
    ContainsEmpty(mid);
    assert OccursAt(mid, mid, 0);
    var js := JsonString(t);
    assert js[1..1 + |et|] == et;
    ContainsWithin(js, et, 1, mid);
    JsonItemsHoldElement(tags, k);
    var items := JsonItems(tags);
    var j: nat :| j <= |items| && OccursAt(items, js, j);
    ContainsWithin(items, js, j, mid);
    var json := JsonArray(tags);
    assert json[1..1 + |items|] == items;
    ContainsWithin(json, items, 1, mid);
    var n: nat :| n <= |json| && OccursAt(json, mid, n);
    OccursAtLower(json, mid, n);
    LikeSurroundIsContains(json, q);
  }

  /**
   * The `tags LIKE` test reads JSON punctuation too: a search for `"` matches
   * every row that has at least one tag, whatever its tags say.
   */
  lemma QuoteMatchesEveryTaggedRow(tags: seq<string>)
    requires tags != []
    ensures Like(JsonArray(tags), Surround("\""))
  {
    var json := JsonArray(tags);
    assert json[1] == '"';
    assert Lower(json)[1..2] == Lower("\"");
    assert OccursAt(Lower(json), Lower("\""), 1);
    LikeSurroundIsContains(json, "\"");
  }

  // ---------------------------------------------------------------------------
  // Rows and records

  /** The parameters `insertInitialData` binds for one catalog formula. */
  function ToRow(f: Formula): (r: FormulaRow)
    ensures r.id == f.id && r.name == f.name && r.category == f.category
    ensures r.subcategory.None? <==> f.subcategory.None? || f.subcategory == Some("")
  {
    FormulaRow(
      f.id, f.name, f.formula, f.description, f.category,
      if f.subcategory == Some("") then None else f.subcategory,
      f.difficulty, Some(f.tips), Some(f.examples), Some(f.concepts), Some(f.tags))
  }

  function ListOrEmpty<T>(column: Option<seq<T>>): seq<T>
  {
    if column.Some? then column.value else []
  }

  /** `mapDatabaseFormulaToFormula`: a NULL list column reads as the empty list. */
  function ToFormula(row: FormulaRow): (f: Formula)
    ensures f.id == row.id && f.name == row.name && f.category == row.category
    ensures row.tips.None? ==> f.tips == []
    ensures row.examples.None? ==> f.examples == []
    ensures row.concepts.None? ==> f.concepts == []
    ensures row.tags.None? ==> f.tags == []
  {
    Formula(
      row.id, row.name, row.formula, row.description, row.category, row.subcategory,
      ListOrEmpty(row.tips), ListOrEmpty(row.examples), ListOrEmpty(row.concepts),
      row.difficulty, ListOrEmpty(row.tags))
  }

  /** Storing a formula and reading it back gives it back, unless its subcategory is the empty string. */
  lemma RowRoundTrip(f: Formula)
    ensures ToFormula(ToRow(f)) == f <==> f.subcategory != Some("")
    ensures ToFormula(ToRow(f)) == f.(subcategory := if f.subcategory == Some("") then None else f.subcategory)
  {
  }

  function ToFormulas(rows: seq<FormulaRow>): (r: seq<Formula>)
    ensures |r| == |rows|
    ensures forall i | 0 <= i < |rows| :: r[i] == ToFormula(rows[i])
  {
    seq(|rows|, i requires 0 <= i < |rows| => ToFormula(rows[i]))
  }

  /** The rows `insertInitialData` writes for a seed list. */
  function SeedRows(seed: seq<Formula>): (r: seq<FormulaRow>)
    ensures |r| == |seed|
    ensures forall i | 0 <= i < |seed| :: r[i] == ToRow(seed[i])
  {
    seq(|seed|, i requires 0 <= i < |seed| => ToRow(seed[i]))
  }

  /** The catalog's seed rows are not empty, so seeding happens at most once. */
  lemma SeedRowsNonEmpty()
    ensures |SeedRows(Catalog.Formulas)| == 10
  {
  }

  /** The `id` column is a primary key. */
  predicate KeysDistinct(rows: seq<FormulaRow>)
  {
    forall i, j | 0 <= i < j < |rows| :: rows[i].id != rows[j].id
  }

  predicate IdsDistinct(seed: seq<Formula>)
  {
    forall i, j | 0 <= i < j < |seed| :: seed[i].id != seed[j].id
  }

  /** `SELECT * FROM formulas WHERE id = ?`: the row with that key, if any. */
  function FindRow(rows: seq<FormulaRow>, id: string): (r: Option<FormulaRow>)
    ensures r.None? <==> forall k | 0 <= k < |rows| :: rows[k].id != id
    ensures r.Some? ==> r.value in rows && r.value.id == id
  {
    if rows == [] then None
    else if rows[0].id == id then Some(rows[0])
    else FindRow(rows[1..], id)
  }

  /** Under a primary key the row found is the only row with that id. */
  lemma FindRowUnique(rows: seq<FormulaRow>, k: nat)
    requires KeysDistinct(rows) && k < |rows|
    ensures FindRow(rows, rows[k].id) == Some(rows[k])
  {
    var r := FindRow(rows, rows[k].id);
    var m :| 0 <= m < |rows| && rows[m] == r.value;
    assert m == k;
  }

  /** The formulas an inner join contributes for one referencing row. */
  function JoinOne(rows: seq<FormulaRow>, id: string): (r: seq<Formula>)
    ensures |r| <= 1
    ensures r != [] <==> FindRow(rows, id).Some?
  {
    match FindRow(rows, id)
    case Some(row) => [ToFormula(row)]
    case None => []
  }

  /**
   * `formulas f INNER JOIN t ON f.id = t.formula_id`, read in the order of the
   * referencing rows `ids`: one formula per row whose formula exists.
   */
  function Join(rows: seq<FormulaRow>, ids: seq<string>): (r: seq<Formula>)
    ensures |r| <= |ids|
    ensures (forall i | 0 <= i < |ids| :: FindRow(rows, ids[i]).Some?) ==> |r| == |ids|
  {
    if ids == [] then [] else JoinOne(rows, ids[0]) + Join(rows, ids[1..])
  }

  /** When every referenced formula is stored, the join lists the record of each reference, in order. */
  lemma {:induction false} JoinStored(rows: seq<FormulaRow>, ids: seq<string>)
    requires AllStored(rows, ids)
    ensures |Join(rows, ids)| == |ids|
    ensures forall i | 0 <= i < |ids| :: Join(rows, ids)[i] == ToFormula(FindRow(rows, ids[i]).value)
  {
    if ids != [] {
      var rest := Join(rows, ids[1..]);
      JoinStored(rows, ids[1..]);
      assert Join(rows, ids) == [ToFormula(FindRow(rows, ids[0]).value)] + rest;
      forall i | 1 <= i < |ids| ensures Join(rows, ids)[i] == ToFormula(FindRow(rows, ids[i]).value) {
        assert Join(rows, ids)[i] == rest[i - 1] && ids[1..][i - 1] == ids[i];
      }
    }
  }

  /** The inner join drops exactly the references to formulas that are not stored. */
  lemma {:induction false} JoinDropsMissing(rows: seq<FormulaRow>, ids: seq<string>)
    ensures Join(rows, ids) == Join(rows, Filter(ids, StoredIn(rows)))
  {
    if ids != [] {
      var kept := Filter(ids, StoredIn(rows));
      var rest := Filter(ids[1..], StoredIn(rows));
      JoinDropsMissing(rows, ids[1..]);
      if FindRow(rows, ids[0]).Some? {
        assert kept == [ids[0]] + rest;
        assert kept[1..] == rest;
      } else {
        assert kept == rest;
      }
    }
  }

  /** Whether a reference names a stored formula. */
  function StoredIn(rows: seq<FormulaRow>): string -> bool
  {
    (id: string) => FindRow(rows, id).Some?
  }

  function FavoriteIds(favorites: seq<FavoriteRow>): seq<string>
  {
    seq(|favorites|, i requires 0 <= i < |favorites| => favorites[i].formulaId)
  }

  function RecentIds(recent: seq<RecentRow>): seq<string>
  {
    seq(|recent|, i requires 0 <= i < |recent| => recent[i].formulaId)
  }

  function Take<T>(s: seq<T>, n: nat): (r: seq<T>)
    ensures |r| <= n && r <= s
    ensures |s| <= n ==> r == s
  {
    if |s| <= n then s else s[..n]
  }

  /** Favorite rows are in key and timestamp order. */
  function FavoriteBefore(): (FavoriteRow, FavoriteRow) -> bool
  {
    (a: FavoriteRow, b: FavoriteRow) => a.id < b.id && a.createdAt < b.createdAt
  }

  /** Recent rows are in key and timestamp order, one per formula. */
  function RecentBefore(): (RecentRow, RecentRow) -> bool
  {
    (a: RecentRow, b: RecentRow) => a.id < b.id && a.viewedAt < b.viewedAt && a.formulaId != b.formulaId
  }

  function FavoriteNotFor(id: string): FavoriteRow -> bool
  {
    (fav: FavoriteRow) => fav.formulaId != id
  }

  function FavoriteFor(id: string): FavoriteRow -> bool
  {
    (fav: FavoriteRow) => fav.formulaId == id
  }

  function RecentNotFor(id: string): RecentRow -> bool
  {
    (r: RecentRow) => r.formulaId != id
  }

  /**
   * `DELETE FROM recent WHERE id NOT IN (SELECT id FROM recent ORDER BY
   * viewed_at DESC LIMIT n)`: the `n` most recently viewed rows stay.
   */
  function KeepNewest(rows: seq<RecentRow>, n: nat): (r: seq<RecentRow>)
    ensures |r| == if |rows| <= n then |rows| else n
    ensures r == rows[|rows| - |r|..]
  {
    if |rows| <= n then rows else rows[|rows| - n..]
  }

  /**
   * On a table in `viewed_at` order, the rows `KeepNewest` keeps are the most
   * recently viewed ones: each was viewed after every row it drops.
   */
  lemma KeepNewestKeepsLatest(rows: seq<RecentRow>, n: nat)
    requires forall i, j | 0 <= i < j < |rows| :: rows[i].viewedAt < rows[j].viewedAt
    ensures var r := KeepNewest(rows, n);
      forall i, k | 0 <= i < |rows| - |r| && 0 <= k < |r| :: rows[i].viewedAt < r[k].viewedAt
  {
    var r := KeepNewest(rows, n);
    assert forall k | 0 <= k < |r| :: r[k] == rows[|rows| - |r| + k];
  }

  /** The name order of `ORDER BY name`. */
  function NameLe(): (Formula, Formula) -> bool
  {
    (a: Formula, b: Formula) => StrLe(a.name, b.name)
  }

  /** `... ORDER BY name`, then mapped to records. */
  function ByName(rows: seq<FormulaRow>): (r: seq<Formula>)
    ensures multiset(r) == multiset(ToFormulas(rows))
    ensures SortedBy(r, NameLe())
  {
    StrLeOnKeyIsTotalPreorder(NameLe(), (f: Formula) => f.name);
    SortBy(ToFormulas(rows), NameLe())
  }

  /** The WHERE clause of `searchFormulas` for the pattern `'%' || query || '%'`. */
  predicate SearchHit(row: FormulaRow, pattern: string)
  {
    || Like(row.name, pattern)
    || Like(row.description, pattern)
    || (row.tags.Some? && Like(JsonArray(row.tags.value), pattern))
  }

  function SearchHitFor(query: string): FormulaRow -> bool
  {
    (row: FormulaRow) => SearchHit(row, Surround(query))
  }

  function InCategory(category: string): FormulaRow -> bool
  {
    (row: FormulaRow) => row.category == category
  }

  /**
   * For a query without LIKE wildcards, a row is found exactly when its name,
   * its description or the JSON text of its tags contains the query,
   * ignoring ASCII case.
   */
  lemma SearchHitMeaning(row: FormulaRow, query: string)
    requires HasNoWildcards(query)
    ensures SearchHitFor(query)(row) <==>
      || ContainsIgnoringCase(row.name, query)
      || ContainsIgnoringCase(row.description, query)
      || (row.tags.Some? && ContainsIgnoringCase(JsonArray(row.tags.value), query))
  {
    LikeSurroundIsContains(row.name, query);
    LikeSurroundIsContains(row.description, query);
    if row.tags.Some? {
      LikeSurroundIsContains(JsonArray(row.tags.value), query);
    }
  }

  /** Deleting one formula's favorite rows keeps the rest in order and within the counters. */
  lemma RemovalKeepsOrder(favorites: seq<FavoriteRow>, formulaId: string, nextId: nat, clock: nat)
    requires SortedBy(favorites, FavoriteBefore())
    requires forall k | 0 <= k < |favorites| :: favorites[k].id < nextId && favorites[k].createdAt < clock
    ensures var r := Filter(favorites, FavoriteNotFor(formulaId));
      && SortedBy(r, FavoriteBefore())
      && (forall k | 0 <= k < |r| :: r[k].id < nextId && r[k].createdAt < clock)
      && (forall k | 0 <= k < |r| :: r[k].formulaId != formulaId)
  {
    var r := Filter(favorites, FavoriteNotFor(formulaId));
    SortedBySubsequence(r, favorites, FavoriteBefore());
    SubsequenceMembers(r, favorites);
    assert forall k | 0 <= k < |r| :: r[k] in r;
  }

  /** Deleting one formula's favorite rows leaves every other formula's rows as they were. */
  lemma RemovalKeepsOthers(favorites: seq<FavoriteRow>, formulaId: string)
    ensures forall other | other != formulaId ::
      Filter(Filter(favorites, FavoriteNotFor(formulaId)), FavoriteFor(other)) == Filter(favorites, FavoriteFor(other))
  {
    forall other | other != formulaId
      ensures Filter(Filter(favorites, FavoriteNotFor(formulaId)), FavoriteFor(other)) == Filter(favorites, FavoriteFor(other))
    {
      FilterOfFilter(favorites, FavoriteNotFor(formulaId), FavoriteFor(other));
    }
  }

  /** A row newer than every row of an ordered table, for a formula none of them has, extends the order. */
  lemma AppendNewerRow(kept: seq<RecentRow>, row: RecentRow)
    requires SortedBy(kept, RecentBefore())
    requires forall k | 0 <= k < |kept| :: RecentBefore()(kept[k], row)
    ensures SortedBy(kept + [row], RecentBefore())
  {
    var rows := kept + [row];
    forall i, j | 0 <= i < j < |rows| ensures RecentBefore()(rows[i], rows[j]) {
      if j < |kept| {
        assert rows[i] == kept[i] && rows[j] == kept[j];
      } else {
        assert rows[i] == kept[i] && rows[j] == row;
      }
    }
  }

  /** The rows `addToRecent` does not delete stay ordered and precede the row it inserts. */
  lemma KeptRowsPrecede(recent: seq<RecentRow>, row: RecentRow, nextId: nat, clock: nat)
    requires SortedBy(recent, RecentBefore())
    requires forall k | 0 <= k < |recent| :: recent[k].id < nextId && recent[k].viewedAt < clock
    requires row.id == nextId && row.viewedAt == clock
    ensures var kept := Filter(recent, RecentNotFor(row.formulaId));
      SortedBy(kept, RecentBefore()) && forall k | 0 <= k < |kept| :: RecentBefore()(kept[k], row)
  {
    var kept := Filter(recent, RecentNotFor(row.formulaId));
    SortedBySubsequence(kept, recent, RecentBefore());
    SubsequenceMembers(kept, recent);
    forall k | 0 <= k < |kept| ensures RecentBefore()(kept[k], row) {
      assert kept[k] in kept;
      var m :| 0 <= m < |recent| && recent[m] == kept[k];
    }
  }

  /** Keeping the newest rows keeps every row's id and view time below the counters. */
  lemma NewestRowsStayBelow(rows: seq<RecentRow>, n: nat, nextId: nat, clock: nat)
    requires forall k | 0 <= k < |rows| :: rows[k].id < nextId && rows[k].viewedAt < clock
    ensures var r := KeepNewest(rows, n);
      forall k | 0 <= k < |r| :: r[k].id < nextId && r[k].viewedAt < clock
  {
    var r := KeepNewest(rows, n);
    forall k | 0 <= k < |r| ensures r[k].id < nextId && r[k].viewedAt < clock {
      assert r[k] == rows[|rows| - |r| + k];
    }
  }

  /** In an ordered recent table, the last row's formula has no other row. */
  lemma LastRowIsAlone(r: seq<RecentRow>)
    requires SortedBy(r, RecentBefore()) && r != []
    ensures forall k | 0 <= k < |r| - 1 :: r[k].formulaId != r[|r| - 1].formulaId
  {
    forall k | 0 <= k < |r| - 1 ensures r[k].formulaId != r[|r| - 1].formulaId {
      assert RecentBefore()(r[k], r[|r| - 1]);
    }
  }

  /** After the delete and the insert, the table is ordered and below the advanced counters. */
  lemma ViewedRowsInOrder(recent: seq<RecentRow>, row: RecentRow, nextId: nat, clock: nat)
    requires SortedBy(recent, RecentBefore())
    requires forall k | 0 <= k < |recent| :: recent[k].id < nextId && recent[k].viewedAt < clock
    requires row.id == nextId && row.viewedAt == clock
    ensures var rows := Filter(recent, RecentNotFor(row.formulaId)) + [row];
      && SortedBy(rows, RecentBefore())
      && forall k | 0 <= k < |rows| :: rows[k].id < nextId + 1 && rows[k].viewedAt < clock + 1
  {
    var kept := Filter(recent, RecentNotFor(row.formulaId));
    assert SortedBy(kept, RecentBefore()) && forall k | 0 <= k < |kept| :: RecentBefore()(kept[k], row) by {
      KeptRowsPrecede(recent, row, nextId, clock);
    }
    var rows := kept + [row];
    assert SortedBy(rows, RecentBefore()) by {
      AppendNewerRow(kept, row);
    }
    forall k | 0 <= k < |rows| ensures rows[k].id < nextId + 1 && rows[k].viewedAt < clock + 1 {
      if k < |kept| {
        assert RecentBefore()(rows[k], rows[|kept|]);
      }
    }
  }

  /** `addToRecent`'s three statements: delete the formula's rows, insert `row`, keep the newest 50. */
  function RecentAfterView(recent: seq<RecentRow>, row: RecentRow): seq<RecentRow>
  {
    KeepNewest(Filter(recent, RecentNotFor(row.formulaId)) + [row], RecentCap)
  }

  /**
   * The recent table after `addToRecent`: still ordered, one row per formula,
   * the new row last and no other row for its formula.
   */
  lemma AddRecentRow(recent: seq<RecentRow>, row: RecentRow, nextId: nat, clock: nat)
    requires SortedBy(recent, RecentBefore())
    requires forall k | 0 <= k < |recent| :: recent[k].id < nextId && recent[k].viewedAt < clock
    requires row.id == nextId && row.viewedAt == clock
    ensures var r := RecentAfterView(recent, row);
      && RecentInOrder(r, nextId + 1, clock + 1)
      && r != [] && r[|r| - 1] == row
      && (forall k | 0 <= k < |r| - 1 :: r[k].formulaId != row.formulaId)
  {
    var rows := Filter(recent, RecentNotFor(row.formulaId)) + [row];
    assert SortedBy(rows, RecentBefore())
      && forall k | 0 <= k < |rows| :: rows[k].id < nextId + 1 && rows[k].viewedAt < clock + 1 by {
      ViewedRowsInOrder(recent, row, nextId, clock);
    }
    var r := KeepNewest(rows, RecentCap);
    assert SortedBy(r, RecentBefore()) by {
      SortedBySuffix(rows, |rows| - |r|, RecentBefore());
    }
    assert forall k | 0 <= k < |r| :: r[k].id < nextId + 1 && r[k].viewedAt < clock + 1 by {
      NewestRowsStayBelow(rows, RecentCap, nextId + 1, clock + 1);
    }
    assert r[|r| - 1] == row;
    LastRowIsAlone(r);
  }

  /** The row viewed last puts its formula, when it exists, at the head of `getRecent`'s join. */
  lemma NewestViewHeadsRecent(rows: seq<FormulaRow>, recent: seq<RecentRow>)
    requires recent != []
    ensures Join(rows, RecentIds(Reversed(recent)))
      == JoinOne(rows, recent[|recent| - 1].formulaId) + Join(rows, RecentIds(Reversed(recent[..|recent| - 1])))
    ensures FindRow(rows, recent[|recent| - 1].formulaId).Some? ==>
      var shown := Take(Join(rows, RecentIds(Reversed(recent))), RecentReadLimit);
      shown != [] && shown[0] == ToFormula(FindRow(rows, recent[|recent| - 1].formulaId).value)
  {
    var init, last := recent[..|recent| - 1], recent[|recent| - 1];
    assert init + [last] == recent;
    ReversedSnoc(init, last);
    assert RecentIds(Reversed(recent)) == [last.formulaId] + RecentIds(Reversed(init));
  }

  /** Every reference names a stored formula. */
  predicate AllStored(rows: seq<FormulaRow>, ids: seq<string>)
  {
    forall k | 0 <= k < |ids| :: FindRow(rows, ids[k]).Some?
  }

  /** `r` lists, newest reference first, the stored record of each of its first `|r|` references. */
  predicate NewestFirst(rows: seq<FormulaRow>, ids: seq<string>, r: seq<Formula>)
  {
    && |r| <= |ids|
    && forall i | 0 <= i < |r| :: RecordOf(rows, ids[|ids| - 1 - i], r[i])
  }

  /** `f` is the record stored under `id`. */
  predicate RecordOf(rows: seq<FormulaRow>, id: string, f: Formula)
  {
    FindRow(rows, id).Some? && f == ToFormula(FindRow(rows, id).value)
  }

  /** Joining the references read backwards lists, newest reference first, the record of each. */
  lemma JoinBackwards(rows: seq<FormulaRow>, ids: seq<string>, backwards: seq<string>)
    requires AllStored(rows, ids)
    requires |backwards| == |ids| && forall i | 0 <= i < |ids| :: backwards[i] == ids[|ids| - 1 - i]
    ensures |Join(rows, backwards)| == |ids| && NewestFirst(rows, ids, Join(rows, backwards))
  {
    JoinStored(rows, backwards);
    var joined := Join(rows, backwards);
    forall i | 0 <= i < |joined| ensures RecordOf(rows, ids[|ids| - 1 - i], joined[i]) {
      assert backwards[i] == ids[|ids| - 1 - i];
    }
  }

  /** With every favorite stored, `getFavorites` lists the record of each favorite row, newest row first. */
  lemma FavoritesShown(rows: seq<FormulaRow>, favorites: seq<FavoriteRow>)
    ensures AllStored(rows, FavoriteIds(favorites)) ==>
      var r := Join(rows, FavoriteIds(Reversed(favorites)));
      |r| == |favorites| && NewestFirst(rows, FavoriteIds(favorites), r)
  {
    if AllStored(rows, FavoriteIds(favorites)) {
      var ids := FavoriteIds(Reversed(favorites));
      assert forall i | 0 <= i < |ids| :: ids[i] == FavoriteIds(favorites)[|favorites| - 1 - i];
      JoinBackwards(rows, FavoriteIds(favorites), ids);
    }
  }

  /** With every viewed formula stored, `getRecent` lists the records of the newest twenty rows, newest first. */
  lemma RecentShown(rows: seq<FormulaRow>, recent: seq<RecentRow>)
    ensures AllStored(rows, RecentIds(recent)) ==>
      var r := Take(Join(rows, RecentIds(Reversed(recent))), RecentReadLimit);
      && |r| == (if |recent| < RecentReadLimit then |recent| else RecentReadLimit)
      && NewestFirst(rows, RecentIds(recent), r)
  {
    if AllStored(rows, RecentIds(recent)) {
      var ids := RecentIds(Reversed(recent));
      assert forall i | 0 <= i < |ids| :: ids[i] == RecentIds(recent)[|recent| - 1 - i];
      JoinBackwards(rows, RecentIds(recent), ids);
      TakeNewestFirst(rows, RecentIds(recent), Join(rows, ids), RecentReadLimit);
    }
  }

  /** A prefix of a newest-first listing is one too. */
  lemma TakeNewestFirst(rows: seq<FormulaRow>, ids: seq<string>, s: seq<Formula>, n: nat)
    requires NewestFirst(rows, ids, s)
    ensures |Take(s, n)| == if |s| < n then |s| else n
    ensures NewestFirst(rows, ids, Take(s, n))
  {
    if n < |s| {
      var r := Take(s, n);
      assert r == s[..n];
      assert forall i | 0 <= i < |r| :: r[i] == s[i];
    }
  }

  /** The `favorites` table: rows in insertion order, ids and timestamps below the counters. */
  predicate FavoritesInOrder(favorites: seq<FavoriteRow>, nextId: nat, clock: nat)
  {
    && SortedBy(favorites, FavoriteBefore())
    && forall k | 0 <= k < |favorites| :: favorites[k].id < nextId && favorites[k].createdAt < clock
  }

  /** The `recent` table: rows in view order, ids and timestamps below the counters, at most 50 rows. */
  predicate RecentInOrder(recent: seq<RecentRow>, nextId: nat, clock: nat)
  {
    && SortedBy(recent, RecentBefore())
    && (forall k | 0 <= k < |recent| :: recent[k].id < nextId && recent[k].viewedAt < clock)
    && |recent| <= RecentCap
  }

  /** `getRecent` after a view of a stored formula lists that formula first. */
  lemma NewestViewShownFirst(rows: seq<FormulaRow>, recent: seq<RecentRow>, id: string)
    requires recent != [] && recent[|recent| - 1].formulaId == id && FindRow(rows, id).Some?
    ensures var shown := Take(Join(rows, RecentIds(Reversed(recent))), RecentReadLimit);
      shown != [] && shown[0] == ToFormula(FindRow(rows, id).value)
  {
    NewestViewHeadsRecent(rows, recent);
  }

  /**
   * The favorites table after `addToFavorites`: still ordered, and the new
   * row's formula, when it exists, heads `getFavorites`' join.
   */
  lemma AddFavoriteRow(rows: seq<FormulaRow>, favorites: seq<FavoriteRow>, row: FavoriteRow, nextId: nat, clock: nat)
    requires FavoritesInOrder(favorites, nextId, clock)
    requires row.id == nextId && row.createdAt == clock
    ensures FavoritesInOrder(favorites + [row], nextId + 1, clock + 1)
    ensures Join(rows, FavoriteIds(Reversed(favorites + [row])))
      == JoinOne(rows, row.formulaId) + Join(rows, FavoriteIds(Reversed(favorites)))
  {
    ReversedSnoc(favorites, row);
    assert FavoriteIds([row] + Reversed(favorites)) == [row.formulaId] + FavoriteIds(Reversed(favorites));
    var added := favorites + [row];
    assert forall k | 0 <= k < |favorites| :: added[k] == favorites[k];
  }

  /** The app's SQLite connection and the tables of its database file. */
  class DatabaseService {
    /** The catalog `insertInitialData` copies into an empty table. */
    const seed: seq<Formula>
    /** `db !== null`: `initDatabase` has opened the database. */
    var isOpen: bool
    var formulas: seq<FormulaRow>
    var favorites: seq<FavoriteRow>
    var recent: seq<RecentRow>
    /** The next CURRENT_TIMESTAMP; every insertion advances it. */
    var clock: nat
    var nextFavoriteId: nat
    var nextRecentId: nat

    ghost predicate Valid()
      reads this
    {
      && IdsDistinct(seed)
      && KeysDistinct(formulas)
      && FavoritesInOrder(favorites, nextFavoriteId, clock)
      && RecentInOrder(recent, nextRecentId, clock)
    }

    /** A service over a fresh database file, before `initDatabase`. */
    constructor()
      ensures Valid() && !isOpen
      ensures seed == Catalog.Formulas
      ensures formulas == [] && favorites == [] && recent == []
    {
      seed := Catalog.Formulas;
      isOpen := false;
      formulas := [];
      favorites := [];
      recent := [];
      clock := 0;
      nextFavoriteId := 0;
      nextRecentId := 0;
      Catalog.FormulaIdsDistinct();
    }

    /**
     * `initDatabase`: opens the database, then seeds an empty `formulas`
     * table. When opening fails the error is caught and nothing changes.
     */
    method InitDatabase(openSucceeds: bool)
      requires Valid()
      modifies this
      ensures Valid()
      ensures !openSucceeds ==> isOpen == old(isOpen) && formulas == old(formulas)
      ensures openSucceeds ==> isOpen
      ensures openSucceeds && old(formulas) == [] ==> formulas == SeedRows(seed)
      ensures old(formulas) != [] ==> formulas == old(formulas)
      ensures favorites == old(favorites) && recent == old(recent)
      ensures clock == old(clock)
    {
      if !openSucceeds {
        return;
      }
      isOpen := true;
      InsertInitialData();
    }

    /** `insertInitialData`: copies the seed catalog, row by row, into an empty `formulas` table. */
    method InsertInitialData()
      requires Valid()
      modifies this
      ensures Valid()
      ensures old(isOpen) && old(formulas) == [] ==> formulas == SeedRows(seed)
      ensures !(old(isOpen) && old(formulas) == []) ==> formulas == old(formulas)
      ensures isOpen == old(isOpen) && favorites == old(favorites) && recent == old(recent)
      ensures clock == old(clock) && nextFavoriteId == old(nextFavoriteId) && nextRecentId == old(nextRecentId)
    {
      if !isOpen {
        return;
      }
      var count := |formulas|;
      if count == 0 {
        var i := 0;
        while i < |seed|
          invariant 0 <= i <= |seed|
          invariant formulas == SeedRows(seed[..i])
          invariant Valid()
          invariant isOpen == old(isOpen) && favorites == old(favorites) && recent == old(recent)
          invariant clock == old(clock) && nextFavoriteId == old(nextFavoriteId) && nextRecentId == old(nextRecentId)
        {
          assert forall k | 0 <= k < i :: formulas[k].id == seed[k].id != seed[i].id;
          formulas := formulas + [ToRow(seed[i])];
          i := i + 1;
          assert seed[..i] == seed[..i - 1] + [seed[i - 1]];
        }
        assert seed[..i] == seed;
      }
    }

    /** `getAllFormulas`: every row, by name. */
    function GetAllFormulas(): (r: seq<Formula>)
      reads this
      ensures !isOpen ==> r == []
      ensures isOpen ==> multiset(r) == multiset(ToFormulas(formulas)) && SortedBy(r, NameLe())
    {
      if !isOpen then [] else ByName(formulas)
    }

    /** `getFormulasByCategory`: the rows of one category, by name. */
    function GetFormulasByCategory(category: string): (r: seq<Formula>)
      reads this
      ensures !isOpen ==> r == []
      ensures isOpen ==> SortedBy(r, NameLe())
      ensures isOpen ==> multiset(r) == multiset(ToFormulas(Filter(formulas, InCategory(category))))
    {
      if !isOpen then [] else ByName(Filter(formulas, InCategory(category)))
    }

    /** `searchFormulas`: the rows whose name, description or tags text is LIKE `%query%`, by name. */
    function SearchFormulas(query: string): (r: seq<Formula>)
      reads this
      ensures !isOpen ==> r == []
      ensures isOpen ==> SortedBy(r, NameLe())
      ensures isOpen ==> multiset(r) == multiset(ToFormulas(Filter(formulas, SearchHitFor(query))))
    {
      if !isOpen then [] else ByName(Filter(formulas, SearchHitFor(query)))
    }

    /** `getFormulaById`: the record of the row with that key, or null. */
    function GetFormulaById(id: string): (r: Option<Formula>)
      reads this
      ensures r.Some? <==> isOpen && exists k | 0 <= k < |formulas| :: formulas[k].id == id
      ensures r.Some? ==> exists k | 0 <= k < |formulas| :: formulas[k].id == id && r.value == ToFormula(formulas[k])
    {
      if !isOpen then None
      else match FindRow(formulas, id)
        case Some(row) => Some(ToFormula(row))
        case None => None
    }

    /** `isFavorite`: whether `COUNT(*)` of the id's favorite rows is positive. */
    function IsFavorite(formulaId: string): (r: bool)
      reads this
      ensures r <==> isOpen && exists k | 0 <= k < |favorites| :: favorites[k].formulaId == formulaId
    {
      FilterNonEmpty(favorites, FavoriteFor(formulaId));
      isOpen && |Filter(favorites, FavoriteFor(formulaId))| > 0
    }

    /**
     * `getFavorites`: one formula per favorite row, newest `created_at` first
     * (the rows are kept in `created_at` order, see `FavoritesInOrder`).
     */
    function GetFavorites(): (r: seq<Formula>)
      reads this
      ensures !isOpen ==> r == []
      ensures |r| <= |favorites|
      ensures isOpen && AllStored(formulas, FavoriteIds(favorites)) ==>
        |r| == |favorites| && NewestFirst(formulas, FavoriteIds(favorites), r)
    {
      if !isOpen then []
      else
        FavoritesShown(formulas, favorites);
        Join(formulas, FavoriteIds(Reversed(favorites)))
    }

    /**
     * `getRecent`: at most twenty formulas, newest `viewed_at` first (the rows
     * are kept in `viewed_at` order, see `RecentInOrder`).
     */
    function GetRecent(): (r: seq<Formula>)
      reads this
      ensures !isOpen ==> r == []
      ensures |r| <= RecentReadLimit && |r| <= |recent|
      ensures isOpen && AllStored(formulas, RecentIds(recent)) ==>
        && |r| == (if |recent| < RecentReadLimit then |recent| else RecentReadLimit)
        && NewestFirst(formulas, RecentIds(recent), r)
    {
      if !isOpen then []
      else
        RecentShown(formulas, recent);
        Take(Join(formulas, RecentIds(Reversed(recent))), RecentReadLimit)
    }

    /**
     * `addToFavorites`: `INSERT OR IGNORE` into a table whose only unique key
     * is the AUTOINCREMENT id, so every call adds a row (`AddFavoriteRow`
     * shows the formula then heads `getFavorites`).
     */
    method AddToFavorites(formulaId: string)
      requires Valid()
      modifies this
      ensures Valid()
      ensures !old(isOpen) ==> unchanged(this)
      ensures old(isOpen) ==> favorites == old(favorites) + [FavoriteRow(old(nextFavoriteId), formulaId, old(clock))]
      ensures old(isOpen) ==> IsFavorite(formulaId)
      ensures isOpen == old(isOpen) && formulas == old(formulas) && recent == old(recent)
    {
      if !isOpen {
        return;
      }
      var row := FavoriteRow(nextFavoriteId, formulaId, clock);
      var added := favorites + [row];
      assert FavoritesInOrder(added, nextFavoriteId + 1, clock + 1) by {
        AddFavoriteRow(formulas, favorites, row, nextFavoriteId, clock);
      }
      assert RecentInOrder(recent, nextRecentId, clock + 1);
      assert added[|added| - 1].formulaId == formulaId;
      favorites, nextFavoriteId, clock := added, nextFavoriteId + 1, clock + 1;
    }

    /** `removeFromFavorites`: deletes every favorite row of the id and no other. */
    method RemoveFromFavorites(formulaId: string)
      requires Valid()
      modifies this
      ensures Valid()
      ensures !old(isOpen) ==> unchanged(this)
      ensures old(isOpen) ==> favorites == Filter(old(favorites), FavoriteNotFor(formulaId))
      ensures !IsFavorite(formulaId)
      ensures forall other | other != formulaId ::
        Filter(favorites, FavoriteFor(other)) == Filter(old(favorites), FavoriteFor(other))
      ensures isOpen == old(isOpen) && formulas == old(formulas) && recent == old(recent)
    {
      if !isOpen {
        return;
      }
      RemovalKeepsOrder(favorites, formulaId, nextFavoriteId, clock);
      RemovalKeepsOthers(favorites, formulaId);
      favorites := Filter(favorites, FavoriteNotFor(formulaId));
    }

    /**
     * `addToRecent`: deletes the id's row, inserts a fresh one, then keeps the
     * fifty most recently viewed rows.
     */
    method AddToRecent(formulaId: string)
      requires Valid()
      modifies this
      ensures Valid()
      ensures !old(isOpen) ==> unchanged(this)
      ensures old(isOpen) ==>
        recent == RecentAfterView(old(recent), RecentRow(old(nextRecentId), formulaId, old(clock)))
      ensures old(isOpen) ==> recent != [] && recent[|recent| - 1].formulaId == formulaId
      ensures isOpen == old(isOpen) && formulas == old(formulas) && favorites == old(favorites)
    {
      if !isOpen {
        return;
      }
      var row := RecentRow(nextRecentId, formulaId, clock);
      var added := RecentAfterView(recent, row);
      assert RecentInOrder(added, nextRecentId + 1, clock + 1) && added != [] && added[|added| - 1] == row by {
        AddRecentRow(recent, row, nextRecentId, clock);
      }
      assert FavoritesInOrder(favorites, nextFavoriteId, clock + 1);
      recent, nextRecentId, clock := added, nextRecentId + 1, clock + 1;
    }
  }
}

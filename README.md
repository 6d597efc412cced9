# Mathematical Formulas app: catalog queries, ranking and local stores in Dafny

This project models the logic core of the Mathematical Formulas app. That core is the formula
catalog, the ways it is searched, filtered and ranked, and the local databases that keep
favourites, recently viewed formulas, search history and preferences. The app exists in two
variants, and each variant's own rules are modelled as written:

- The React Native app has:
  - the home screen's ranked search;
  - the category screen's chip filters;
  - the in-memory catalog helpers;
  - two expo-sqlite stores: `DatabaseService.ts`, with its `favorites` and `recent` tables, and
    `database.ts`, with its `is_favorite`/`last_viewed` columns, search history and preferences.
- The Android app has the Room `FormulaDao` over the `formulas` table and the `FormulaViewModel`,
  which combines a search query with a selected category.

Modules, one per source file, plus shared helpers:

| module | file | models |
|---|---|---|
| `Catalog` | `catalog.dfy` | `formulas.ts` seed data and `types/index.ts` records |
| `MathCatalog` | `math_catalog.dfy` | `mathFormulas.ts` seed data, `getFormulasByCategory`, `searchFormulas` |
| `HomeSearch` | `home_search.dfy` | `HomeScreen.tsx` relevance search and category card count |
| `CategoryFilter` | `category_filter.dfy` | `CategoryScreen.tsx` filters, chip lists and chip toggles |
| `DatabaseService` | `database_service.dfy` | `DatabaseService.ts`, a class over `formulas`, `favorites` and `recent` |
| `MathDatabase` | `math_database.dfy` | `database.ts`, a class over `formulas`, `search_history` and `user_preferences` |
| `FormulaDao` | `formula_dao.dfy` | `FormulaDao.kt` queries and writes over the `Formula` entity |
| `FormulaViewModel` | `formula_view_model.dfy` | `FormulaViewModel.kt` state and query/category rules |
| `Text`, `Seqs`, `Ordering`, `Options` | helpers | ASCII case folding, substrings, whitespace, SQLite `LIKE`; filtering, dedup, reversal; string order, stable insertion sort, sorted-distinct; `Option` |

Modelling conventions:

- **SQL reads** are functions of the table contents. An `ORDER BY` query is specified by what
  SQL promises: the selected rows, each as often as it is stored (a multiset), in sorted order.
- **Writes** are methods of a class whose fields are the tables. The class keeps an invariant
  `Valid()`: distinct keys, and ids and timestamps below their counters.
- **Time.** `CURRENT_TIMESTAMP` and `new Date()` become a counter that strictly increases.
- **`LIKE`** is modelled as SQLite's matcher: `%` and `_` are wildcards, and ASCII letters
  compare without case. Lemmas show that, for a query without wildcards, `'%' || q || '%'` is
  exactly a case-insensitive substring test.

Properties worth noting:

- The home-screen search is implemented as a scoring loop, an in-place stable insertion sort of
  an array and a slice. It is proved equal to a functional specification. On that
  specification the following are proved:
  - the results are capped at ten;
  - they are sorted by descending score, and equal scores keep catalog order;
  - name matches rank first;
  - the results are the best-scoring formulas;
  - a blank query shows nothing.
- `DatabaseService.ts` favourites have no unique key on `formula_id`. So `INSERT OR IGNORE`
  adds a row on every call, and `getFavorites` lists a formula once per row.
- `DatabaseService.ts` searches the JSON text of the `tags` column. A search for `"` therefore
  matches every row with a tag (`DatabaseService.QuoteMatchesEveryTaggedRow`).
- `database.ts` SQL search agrees with the in-memory `mathFormulas.ts` search for queries
  without wildcards.
- In the Android view model, the result can depend on the order of the two handlers. Choosing
  a category and then typing a query shows the search results, concept matches included,
  restricted to the category. Typing first and then choosing the category filters only on
  name, description and tags. The rows that differ are exactly the concept-only matches
  (`FormulaViewModel.CategoryViewMissesConceptOnlyMatches`).

## Model

| member | source | states |
|---|---|---|
| Catalog.FormulaIdsDistinct | MathFormulasApp/src/data/formulas.ts:54-338 | no two seed formulas share an id |
| Catalog.CategoryIdsDistinct | MathFormulasApp/src/data/formulas.ts:3-52 | no two categories share an id |
| Catalog.FormulasWellFiled | MathFormulasApp/src/data/formulas.ts:3-338 | every formula's category is the id of a listed category, and its subcategory is among that category's subcategories |
| Catalog.CategoryIndex | MathFormulasApp/src/data/formulas.ts:3-52 | finds the position of the category with a given id, or establishes that none has it |
| MathCatalog.GetFormulasByCategory | MathFormulasApp/src/data/mathFormulas.ts:410-412 | order-preserving sub-list holding exactly the entries of that category |
| MathCatalog.SearchFormulas | MathFormulasApp/src/data/mathFormulas.ts:414-422 | order-preserving sub-list holding exactly the entries whose name, description, concept or category contains the lower-cased query, compared in lower case |
| MathCatalog.SearchIgnoresQueryCase | MathFormulasApp/src/data/mathFormulas.ts:415 | searching for q and for lower(q) give the same list |
| MathCatalog.EmptySearchReturnsAll | MathFormulasApp/src/data/mathFormulas.ts:414-422 | the empty query returns the whole catalog |
| MathCatalog.UnknownCategoryIsEmpty | MathFormulasApp/src/data/mathFormulas.ts:410-412 | a category no entry is filed under yields an empty list |
| MathCatalog.SeedIdsDistinct | MathFormulasApp/src/data/mathFormulas.ts:13-398 | the seed ids are pairwise distinct |
| MathCatalog.SeedIdsAsListed | MathFormulasApp/src/data/mathFormulas.ts:13-398 | the ids of the seed entries, in order, are the listed ids |
| MathCatalog.FormulaIdsDistinct | MathFormulasApp/src/data/mathFormulas.ts:13-398 | no two seed entries share an id |
| MathCatalog.FormulaCategoriesListed | MathFormulasApp/src/data/mathFormulas.ts:13-408 | every entry's category occurs in `categories` |
| HomeSearch.Relevance | MathFormulasApp/src/screens/HomeScreen.tsx:37-61 | a score is positive iff the name, the description or some tag matches; a name match scores at least 10; without a name match the score is at most 8 |
| HomeSearch.Scored | MathFormulasApp/src/screens/HomeScreen.tsx:36-61 | no more entries than catalog formulas (order and multiplicity: `ScoredIsFilteredScores`) |
| HomeSearch.ScoredIsFilteredScores | MathFormulasApp/src/screens/HomeScreen.tsx:36-61 | the i-th scored entry is the entry of the i-th formula scoring above zero, so entries follow catalog order, once per formula |
| HomeSearch.ScoredMembers | MathFormulasApp/src/screens/HomeScreen.tsx:36-61 | the scored list holds exactly the entries of formulas scoring above zero, each with the score and match type it earns |
| HomeSearch.SortByRelevance | MathFormulasApp/src/screens/HomeScreen.tsx:64 | a permutation in non-increasing relevance |
| HomeSearch.SortByRelevanceKeepsBands | MathFormulasApp/src/screens/HomeScreen.tsx:64 | the sort is stable: the entries of each score keep their order |
| HomeSearch.DescendingBandsDetermine | MathFormulasApp/src/screens/HomeScreen.tsx:64 | a stable descending sort has exactly one possible result |
| HomeSearch.Search | MathFormulasApp/src/screens/HomeScreen.tsx:26-66 | at most ten results, in non-increasing relevance |
| HomeSearch.BlankQueryShowsNothing | MathFormulasApp/src/screens/HomeScreen.tsx:28-31 | a query that trims to nothing shows no results |
| HomeSearch.ResultCount | MathFormulasApp/src/screens/HomeScreen.tsx:65 | a non-blank query shows min(10, number of scored entries) results, and they are a prefix of the sorted list |
| HomeSearch.SearchIsPrefix | MathFormulasApp/src/screens/HomeScreen.tsx:64-65 | a non-blank query's results are a prefix of the sorted scored list |
| HomeSearch.ResultsComeFromCatalog | MathFormulasApp/src/screens/HomeScreen.tsx:36-61 | every result is the entry of a catalog formula scoring above zero |
| HomeSearch.ResultsAreTheBest | MathFormulasApp/src/screens/HomeScreen.tsx:64-65 | no scored entry left out scores above one that is shown |
| HomeSearch.EqualScoresKeepCatalogOrder | MathFormulasApp/src/screens/HomeScreen.tsx:64-65 | the results of each score are a prefix of that score's entries in catalog order |
| HomeSearch.NameMatchesComeFirst | MathFormulasApp/src/screens/HomeScreen.tsx:41-56 | a result whose name matches never follows one whose name does not |
| HomeSearch.ResultsDistinct | MathFormulasApp/src/screens/HomeScreen.tsx:36-61 | a catalog without repeats gives results without repeated formulas |
| HomeSearch.TopScoreStaysFirst | MathFormulasApp/src/screens/HomeScreen.tsx:64 | the stable sort keeps first an entry that nothing outscores |
| HomeSearch.QuadraticFormulaScoresTop | MathFormulasApp/src/screens/HomeScreen.tsx:37-61 | the quadratic formula scores 18 for "quad", reported as a tags match |
| HomeSearch.QuadraticFormulaFirst | MathFormulasApp/src/screens/HomeScreen.tsx:26-66 | searching the seed catalog for "quad" shows the quadratic formula first with relevance 18 |
| HomeSearch.FirstScoredFirst | MathFormulasApp/src/screens/HomeScreen.tsx:36-65 | a first catalog formula earning the top score heads the results |
| HomeSearch.CategoryCount | MathFormulasApp/src/screens/HomeScreen.tsx:82 | the card count is at most the catalog size |
| HomeSearch.CountsAddUp | MathFormulasApp/src/screens/HomeScreen.tsx:82 | with distinct categories covering every formula, the card counts add up to the catalog size |
| HomeSearch.SeedCountsAddUp | MathFormulasApp/src/screens/HomeScreen.tsx:82 | the seed categories' card counts add up to the ten seed formulas |
| HomeSearch.SortByRelevanceInPlace | MathFormulasApp/src/screens/HomeScreen.tsx:64 | the in-place sort leaves the array in descending relevance with every score's entries in their old order |
| HomeSearch.SinkEntry | MathFormulasApp/src/screens/HomeScreen.tsx:64 | one pass of that sort extends the descending prefix by one entry and keeps every score's entries in order |
| HomeSearch.ScoreAll | MathFormulasApp/src/screens/HomeScreen.tsx:36-61 | the scoring loop yields exactly the scored list |
| HomeSearch.ScoreOne | MathFormulasApp/src/screens/HomeScreen.tsx:37-55 | one formula's pass adds 10, 5 and 3 for the name, description and tag hits; the last hit sets the match type, so a positive result is that formula's score |
| HomeSearch.HomeScreen.HandleSearch | MathFormulasApp/src/screens/HomeScreen.tsx:26-66 | records the query and shows exactly the specified ranked results |
| CategoryFilter.CategoryFormulas | MathFormulasApp/src/screens/CategoryScreen.tsx:31 | order-preserving sub-list of exactly the category's formulas |
| CategoryFilter.FilteredFormulas | MathFormulasApp/src/screens/CategoryScreen.tsx:33-41 | order-preserving sub-list of the category's formulas matching the selected subcategory (when a non-empty one is selected) and difficulty (when selected) |
| CategoryFilter.NoSelectionShowsCategory | MathFormulasApp/src/screens/CategoryScreen.tsx:33-41 | with nothing selected, the filtered list is the category's list |
| CategoryFilter.Subcategories | MathFormulasApp/src/screens/CategoryScreen.tsx:43 | the non-empty subcategories of the category, each once, in first-occurrence order |
| CategoryFilter.Difficulties | MathFormulasApp/src/screens/CategoryScreen.tsx:44 | the category's difficulties, each once, in first-occurrence order |
| CategoryFilter.DifficultiesOccur | MathFormulasApp/src/screens/CategoryScreen.tsx:44 | a difficulty has a chip iff some formula of the category has it |
| CategoryFilter.Toggle | MathFormulasApp/src/screens/CategoryScreen.tsx:148 | pressing the selected chip clears the selection; pressing another selects it |
| CategoryFilter.ToggleTwice | MathFormulasApp/src/screens/CategoryScreen.tsx:148 | pressing a chip twice restores the selection iff nothing or that chip was selected; from another chip it ends with nothing |
| CategoryFilter.CategoryScreen.PressSubcategoryChip | MathFormulasApp/src/screens/CategoryScreen.tsx:148 | the subcategory selection toggles and the difficulty stays |
| CategoryFilter.CategoryScreen.PressDifficultyChip | MathFormulasApp/src/screens/CategoryScreen.tsx:165 | the difficulty selection toggles and the subcategory stays |
| CategoryFilter.CategoryScreen.ClearFilters | MathFormulasApp/src/screens/CategoryScreen.tsx:100-103 | both selections become null, and the whole category is listed |
| DatabaseService.JsonEscapeIdentity | MathFormulasApp/src/services/DatabaseService.ts:84-87 | a string with nothing to escape is written to JSON unchanged |
| DatabaseService.TagMatchIsFound | MathFormulasApp/src/services/DatabaseService.ts:121-137 | a tag containing a plain query makes the JSON `tags` column match `LIKE '%q%'` |
| DatabaseService.QuoteMatchesEveryTaggedRow | MathFormulasApp/src/services/DatabaseService.ts:84-87 | any non-empty tag list's JSON text matches a search for `"` |
| DatabaseService.ToFormula | MathFormulasApp/src/services/DatabaseService.ts:255-269 | id, name and category are copied, and NULL list columns map to empty lists (the other columns: `RowRoundTrip`) |
| DatabaseService.RowRoundTrip | MathFormulasApp/src/services/DatabaseService.ts:70-91 | a record read back after seeding equals the original iff its subcategory is not the empty string (`subcategory \|\| null`) |
| DatabaseService.SeedRows | MathFormulasApp/src/services/DatabaseService.ts:70-91 | one row per seed record, in order |
| DatabaseService.SeedRowsNonEmpty | MathFormulasApp/src/services/DatabaseService.ts:70-91 | seeding the catalog writes ten rows |
| DatabaseService.FindRow | MathFormulasApp/src/services/DatabaseService.ts:139-152 | finds the stored row with that key, or establishes that none has it |
| DatabaseService.Join | MathFormulasApp/src/services/DatabaseService.ts:184-188 | the join lists at most one formula per id, and exactly one when every id is stored |
| DatabaseService.JoinStored | MathFormulasApp/src/services/DatabaseService.ts:184-188 | when every id is stored, the i-th joined formula is the record stored under the i-th id |
| DatabaseService.JoinDropsMissing | MathFormulasApp/src/services/DatabaseService.ts:184-188 | the inner join skips exactly the ids with no stored formula |
| DatabaseService.KeepNewest | MathFormulasApp/src/services/DatabaseService.ts:227-232 | the last min(n, len) rows |
| DatabaseService.KeepNewestKeepsLatest | MathFormulasApp/src/services/DatabaseService.ts:227-232 | in a table ordered by view time, pruning keeps the 50 most recently viewed rows |
| DatabaseService.ByName | MathFormulasApp/src/services/DatabaseService.ts:94-104 | a permutation sorted by name |
| DatabaseService.SearchHitMeaning | MathFormulasApp/src/services/DatabaseService.ts:121-137 | for a plain query, a hit iff the name, description or tags text contains it ignoring case |
| DatabaseService.AddRecentRow | MathFormulasApp/src/services/DatabaseService.ts:215-232 | after delete, insert and prune, the table is ordered, bounded by 50, ends with the id and holds no other row for it |
| DatabaseService.NewestViewHeadsRecent | MathFormulasApp/src/services/DatabaseService.ts:238-253 | the newest view of a stored formula heads `getRecent` |
| DatabaseService.NewestViewShownFirst | MathFormulasApp/src/services/DatabaseService.ts:211-253 | when the last recent row, which `addToRecent` leaves, names a stored formula, `getRecent` lists that formula first |
| DatabaseService.AddFavoriteRow | MathFormulasApp/src/services/DatabaseService.ts:154-194 | the appended row keeps the favorites ordered and its formula, when stored, heads `getFavorites` in front of the earlier list |
| DatabaseService.DatabaseService.InitDatabase | MathFormulasApp/src/services/DatabaseService.ts:8-20 | opening seeds an empty table once; a failed open changes nothing |
| DatabaseService.DatabaseService.InsertInitialData | MathFormulasApp/src/services/DatabaseService.ts:63-92 | seeds only an empty table; a second call leaves it unchanged |
| DatabaseService.DatabaseService.GetAllFormulas | MathFormulasApp/src/services/DatabaseService.ts:94-104 | every row's record, sorted by name; [] when closed |
| DatabaseService.DatabaseService.GetFormulasByCategory | MathFormulasApp/src/services/DatabaseService.ts:106-119 | the category's records, sorted by name; [] when closed |
| DatabaseService.DatabaseService.SearchFormulas | MathFormulasApp/src/services/DatabaseService.ts:121-137 | the records of the rows the three `LIKE` clauses accept, sorted by name; [] when closed |
| DatabaseService.DatabaseService.GetFormulaById | MathFormulasApp/src/services/DatabaseService.ts:139-152 | the record of the row with that key iff the database is open and one exists |
| DatabaseService.DatabaseService.IsFavorite | MathFormulasApp/src/services/DatabaseService.ts:196-209 | true iff open and some favorite row holds the id |
| DatabaseService.DatabaseService.GetFavorites | MathFormulasApp/src/services/DatabaseService.ts:180-194 | [] when closed; at most one formula per favorite row; when every favorite is stored, one record per row, the newest row's first (rows are kept in `created_at` order) |
| DatabaseService.DatabaseService.GetRecent | MathFormulasApp/src/services/DatabaseService.ts:238-253 | [] when closed; at most 20 formulas; when every viewed formula is stored, the records of the newest min(20, n) rows, newest first (rows are kept in `viewed_at` order) |
| DatabaseService.FavoritesShown | MathFormulasApp/src/services/DatabaseService.ts:184-188 | with every favorite stored, the join lists each favorite row's record, the newest row's first |
| DatabaseService.RecentShown | MathFormulasApp/src/services/DatabaseService.ts:242-246 | with every viewed formula stored, the listing holds the records of the newest min(20, n) rows, newest first |
| DatabaseService.DatabaseService.AddToFavorites | MathFormulasApp/src/services/DatabaseService.ts:154-165 | appends a row with the next id and timestamp on every call, keeps the table ordered, and afterwards the id is a favorite |
| DatabaseService.DatabaseService.RemoveFromFavorites | MathFormulasApp/src/services/DatabaseService.ts:167-178 | deletes exactly the id's rows; afterwards it is not a favorite and other ids are unaffected |
| DatabaseService.DatabaseService.AddToRecent | MathFormulasApp/src/services/DatabaseService.ts:211-236 | the table becomes the delete-insert-prune result, ends with the id, stays ordered with one row per formula and at most 50 rows |
| MathDatabase.ToFormula | MathFormulasApp/src/services/database.ts:83-93 | the record read from a row |
| MathDatabase.RowRoundTrip | MathFormulasApp/src/services/database.ts:60-76 | a seeded record reads back unchanged |
| MathDatabase.ToFormulaIgnoresState | MathFormulasApp/src/services/database.ts:83-93 | the favorite flag and view time do not reach the record |
| MathDatabase.SeedRows | MathFormulasApp/src/services/database.ts:60-76 | one unflagged, unviewed row per seed record, in order |
| MathDatabase.FindRow | MathFormulasApp/src/services/database.ts:143-170 | finds the row with that key, or establishes that none has it |
| MathDatabase.ByCategoryName | MathFormulasApp/src/services/database.ts:82 | a permutation ordered by category, then by name |
| MathDatabase.LatestFirst | MathFormulasApp/src/services/database.ts:209-211 | exactly the viewed rows, latest view first |
| MathDatabase.LatestViewFirst | MathFormulasApp/src/services/database.ts:209-211 | a row viewed after all others heads the list |
| MathDatabase.SearchAgreesWithCatalogSearch | MathFormulasApp/src/services/database.ts:116-141 | for a plain query, the SQL search selects a row iff the in-memory catalog search selects its record |
| MathDatabase.SetFavorite | MathFormulasApp/src/services/database.ts:180-183 | only the flag of the row with that key changes |
| MathDatabase.SetLastViewed | MathFormulasApp/src/services/database.ts:153-157 | only the view time of the row with that key changes |
| MathDatabase.ToggledTwice | MathFormulasApp/src/services/database.ts:172-185 | toggling flips a stored row's flag; an unknown id changes no row; two toggles restore the table |
| MathDatabase.ToggledFlips | MathFormulasApp/src/services/database.ts:172-185 | with distinct keys a toggle rewrites exactly the matching row, with its flag flipped |
| MathDatabase.RecentQueries | MathFormulasApp/src/services/database.ts:234-241 | each logged query once, and only logged queries |
| MathDatabase.NewestQueryFirst | MathFormulasApp/src/services/database.ts:225-241 | a query logged for the first time heads the history |
| MathDatabase.ViewedFormulaHeadsRecent | MathFormulasApp/src/services/database.ts:153-157 | after stamping a stored row, its record heads the recently viewed list |
| MathDatabase.DatabaseService.InitDatabase | MathFormulasApp/src/services/database.ts:7-15 | opening seeds an empty table once |
| MathDatabase.DatabaseService.PopulateFormulas | MathFormulasApp/src/services/database.ts:52-77 | seeds only an empty table |
| MathDatabase.DatabaseService.GetAllFormulas | MathFormulasApp/src/services/database.ts:79-94 | every record, by category then name; [] when closed |
| MathDatabase.DatabaseService.GetFormulasByCategory | MathFormulasApp/src/services/database.ts:96-114 | the category's records, by name; [] when closed |
| MathDatabase.DatabaseService.SearchResults | MathFormulasApp/src/services/database.ts:116-141 | the records whose name, description, concept or category is `LIKE '%q%'`, by category then name |
| MathDatabase.DatabaseService.SearchFormulas | MathFormulasApp/src/services/database.ts:116-141 | returns the search results and appends exactly one history row holding the query |
| MathDatabase.DatabaseService.GetFormulaById | MathFormulasApp/src/services/database.ts:143-170 | an unknown id returns null and writes nothing; a known id returns its record, stamps that row only with the current time and keeps every timestamp in the past |
| MathDatabase.DatabaseService.ToggleFavorite | MathFormulasApp/src/services/database.ts:172-185 | the table becomes the toggled table |
| MathDatabase.DatabaseService.GetFavorites | MathFormulasApp/src/services/database.ts:187-204 | exactly the flagged rows' records, by category then name |
| MathDatabase.DatabaseService.GetRecentlyViewed | MathFormulasApp/src/services/database.ts:206-223 | the first min(10, n) of the viewed rows, latest first |
| MathDatabase.DatabaseService.AddSearchHistory | MathFormulasApp/src/services/database.ts:225-232 | appends one row; a query never logged before then heads the history |
| MathDatabase.DatabaseService.GetSearchHistory | MathFormulasApp/src/services/database.ts:234-241 | at most 10 distinct queries, all of them logged; when open, either exactly 10 or every logged query |
| MathDatabase.DatabaseService.ClearSearchHistory | MathFormulasApp/src/services/database.ts:243-247 | the history becomes empty |
| MathDatabase.DatabaseService.GetUserPreference | MathFormulasApp/src/services/database.ts:249-257 | the stored value, or null for an unset key |
| MathDatabase.DatabaseService.SetUserPreference | MathFormulasApp/src/services/database.ts:259-266 | the key maps to the value, other keys are unchanged |
| MathDatabase.DatabaseService.GetCategories | MathFormulasApp/src/services/database.ts:268-275 | each stored category once, strictly ascending |
| MathDatabase.DatabaseService.GetDifficultyLevels | MathFormulasApp/src/services/database.ts:277-284 | each stored difficulty once, strictly ascending |
| FormulaDao.FindById | app/src/main/java/com/mathformulas/app/data/FormulaDao.kt:24-25 | a row with that key iff one is stored |
| FormulaDao.FindByIdUnique | app/src/main/java/com/mathformulas/app/data/FormulaDao.kt:24-25 | with ascending keys, the row found is the stored row with that key |
| FormulaDao.AllFormulas | app/src/main/java/com/mathformulas/app/data/FormulaDao.kt:9-10 | every row, as often as stored, sorted by name |
| FormulaDao.FormulasByCategory | app/src/main/java/com/mathformulas/app/data/FormulaDao.kt:12-13 | exactly the rows of that category, sorted by name |
| FormulaDao.FormulasBySubcategory | app/src/main/java/com/mathformulas/app/data/FormulaDao.kt:15-16 | exactly the rows with that subcategory, NULL matching nothing, sorted by name |
| FormulaDao.FavoriteFormulas | app/src/main/java/com/mathformulas/app/data/FormulaDao.kt:18-19 | exactly the flagged rows, sorted by name |
| FormulaDao.FormulasByDifficulty | app/src/main/java/com/mathformulas/app/data/FormulaDao.kt:21-22 | exactly the rows of that difficulty, sorted by name |
| FormulaDao.SearchFormulas | app/src/main/java/com/mathformulas/app/data/FormulaDao.kt:27-35 | exactly the rows whose name, description, tags or concept is `LIKE '%q%'`, sorted by name |
| FormulaDao.SearchHitMeaning | app/src/main/java/com/mathformulas/app/data/FormulaDao.kt:27-35 | for a plain query, a hit iff one of the four fields contains it ignoring case |
| FormulaDao.EmptySearchListsAll | app/src/main/java/com/mathformulas/app/data/FormulaDao.kt:27-35 | the empty query lists every row |
| FormulaDao.AllCategories | app/src/main/java/com/mathformulas/app/data/FormulaDao.kt:37-38 | each stored category once, strictly ascending |
| FormulaDao.SubcategoriesByCategory | app/src/main/java/com/mathformulas/app/data/FormulaDao.kt:40-41 | each non-NULL subcategory of that category once, strictly ascending |
| FormulaDao.IntText | app/src/main/java/com/mathformulas/app/data/FormulaDao.kt:61 | the key's text is non-empty and made of digits and '-' |
| FormulaDao.RelatedFormulas | app/src/main/java/com/mathformulas/app/data/FormulaDao.kt:61-62 | the rows whose related-ids text contains the key's digits anywhere, in key order |
| FormulaDao.RelatedMatchesDigitsInsideAnotherId | app/src/main/java/com/mathformulas/app/data/FormulaDao.kt:61-62 | a row listing "12" is returned for key 1 although it does not list 1 |
| FormulaDao.ListedRelatedFormulas | app/src/main/java/com/mathformulas/app/data/Formula.kt:28 | exactly the rows whose comma-separated id list names the key |
| FormulaDao.ListedRelatedAreFound | app/src/main/java/com/mathformulas/app/data/FormulaDao.kt:61-62 | the query as written misses no row whose list names the key |
| FormulaDao.SplitOn | app/src/main/java/com/mathformulas/app/data/Formula.kt:28 | the comma-separated pieces contain no comma and each occurs in the text |
| FormulaDao.Upsert | app/src/main/java/com/mathformulas/app/data/FormulaDao.kt:43-44 | REPLACE keeps keys ascending, drops the old row of that key, adds the record, and grows the table only for a new key |
| FormulaDao.Inserted | app/src/main/java/com/mathformulas/app/data/FormulaDao.kt:43-44 | afterwards the row for the written key equals the record, no other row changes, and the count grows only for a new key |
| FormulaDao.AutoKeyAddsRow | app/src/main/java/com/mathformulas/app/data/FormulaDao.kt:43-44 | a record with key 0 always adds a row |
| FormulaDao.ReinsertIsIdempotent | app/src/main/java/com/mathformulas/app/data/FormulaDao.kt:43-44 | inserting the same keyed record twice is inserting it once |
| FormulaDao.InsertKeepsOtherRow | app/src/main/java/com/mathformulas/app/data/FormulaDao.kt:43-44 | inserting a record under a different key, or under key 0, leaves the stored row of an existing key unchanged |
| FormulaDao.UpsertKeyed | app/src/main/java/com/mathformulas/app/data/FormulaDao.kt:43-44 | replacing a stored row by itself changes nothing |
| FormulaDao.InsertedAll | app/src/main/java/com/mathformulas/app/data/FormulaDao.kt:46-47 | inserting a list keeps the table well formed and adds at most one row per record |
| FormulaDao.AutoKeysAddAll | app/src/main/java/com/mathformulas/app/data/FormulaDao.kt:46-47 | a list of records that all have key 0 adds exactly one row per record |
| FormulaDao.InsertedAllStores | app/src/main/java/com/mathformulas/app/data/FormulaDao.kt:46-47 | a record with a non-zero key that no later record of the list repeats is, afterwards, the row stored under that key |
| FormulaDao.Updated | app/src/main/java/com/mathformulas/app/data/FormulaDao.kt:49-50 | the row with the record's key becomes the record, every other row stays |
| FormulaDao.Deleted | app/src/main/java/com/mathformulas/app/data/FormulaDao.kt:52-53 | exactly the rows with another key remain, in key order |
| FormulaDao.FavoriteSet | app/src/main/java/com/mathformulas/app/data/FormulaDao.kt:55-56 | only the flag of the row with that key changes |
| FormulaDao.FavoriteSetListsKey | app/src/main/java/com/mathformulas/app/data/FormulaDao.kt:55-56 | after setting a stored key's flag to b, the favorites list (`getFavoriteFormulas`, line 18) holds that key iff b |
| FormulaDao.FavoriteSetListsOthers | app/src/main/java/com/mathformulas/app/data/FormulaDao.kt:55-56 | rows with other keys stay listed or unlisted as before |
| FormulaDao.FormulaTable.FormulaCount | app/src/main/java/com/mathformulas/app/data/FormulaDao.kt:58-59 | the number of rows |
| FormulaDao.FormulaTable.GetFormulaById | app/src/main/java/com/mathformulas/app/data/FormulaDao.kt:24-25 | the stored row with that key, or null when there is none |
| FormulaDao.FormulaTable.InsertFormula | app/src/main/java/com/mathformulas/app/data/FormulaDao.kt:43-44 | the row for the written key is the record, and the count grows only for a new key |
| FormulaDao.FormulaTable.InsertFormulas | app/src/main/java/com/mathformulas/app/data/FormulaDao.kt:46-47 | each record is inserted in list order |
| FormulaDao.FormulaTable.UpdateFormula | app/src/main/java/com/mathformulas/app/data/FormulaDao.kt:49-50 | the table becomes the updated table |
| FormulaDao.FormulaTable.DeleteFormula | app/src/main/java/com/mathformulas/app/data/FormulaDao.kt:52-53 | no row with that key remains |
| FormulaDao.FormulaTable.UpdateFavoriteStatus | app/src/main/java/com/mathformulas/app/data/FormulaDao.kt:55-56 | only that row's flag changes |
| FormulaViewModel.SearchView | app/src/main/java/com/mathformulas/app/viewmodel/FormulaViewModel.kt:83-100 | blank query: all rows, or the category's rows; otherwise the search hits, restricted to the category unless "All"; sorted by name |
| FormulaViewModel.CategoryView | app/src/main/java/com/mathformulas/app/viewmodel/FormulaViewModel.kt:114-135 | "All": every row for a blank query, else the search hits; a category: its rows, kept for a non-blank query when the name, description or tags contain it ignoring case |
| FormulaViewModel.AllChipViewsAgree | app/src/main/java/com/mathformulas/app/viewmodel/FormulaViewModel.kt:83-123 | under "All" both handlers list the same rows |
| FormulaViewModel.BlankQueryViewsAgree | app/src/main/java/com/mathformulas/app/viewmodel/FormulaViewModel.kt:83-135 | with a blank query both handlers list the same rows |
| FormulaViewModel.CategoryViewMissesConceptOnlyMatches | app/src/main/java/com/mathformulas/app/viewmodel/FormulaViewModel.kt:94-135 | inside a category, the filter handler lists a subset of the search handler, and it drops exactly the concept-only matches |
| FormulaViewModel.StaleToggleRepeats | app/src/main/java/com/mathformulas/app/viewmodel/FormulaViewModel.kt:145-148 | toggling twice from the same record writes the same flag twice |
| FormulaViewModel.ViewModel.constructor | app/src/main/java/com/mathformulas/app/viewmodel/FormulaViewModel.kt:17-40 | initial state: loading, no error, query "", category "All", empty lists |
| FormulaViewModel.ViewModel.LoadCategories | app/src/main/java/com/mathformulas/app/viewmodel/FormulaViewModel.kt:47-58 | "All" followed by the stored categories, or the error message |
| FormulaViewModel.ViewModel.LoadAllFormulas | app/src/main/java/com/mathformulas/app/viewmodel/FormulaViewModel.kt:60-77 | every row by name and no error, or the error message; loading ends either way |
| FormulaViewModel.ViewModel.SearchFormulas | app/src/main/java/com/mathformulas/app/viewmodel/FormulaViewModel.kt:79-108 | keeps the query and shows the search view, or sets the error |
| FormulaViewModel.ViewModel.FilterByCategory | app/src/main/java/com/mathformulas/app/viewmodel/FormulaViewModel.kt:110-143 | keeps the category and shows the category view, or sets the error |
| FormulaViewModel.ViewModel.ToggleFavorite | app/src/main/java/com/mathformulas/app/viewmodel/FormulaViewModel.kt:145-155 | writes `!f.isFavorite` for `f.id`, so a stored key is a favorite iff the record was not |
| FormulaViewModel.ViewModel.GetFormulaById | app/src/main/java/com/mathformulas/app/viewmodel/FormulaViewModel.kt:157-166 | the stored row, or null with the error set |
| FormulaViewModel.ViewModel.ClearError | app/src/main/java/com/mathformulas/app/viewmodel/FormulaViewModel.kt:168-170 | the error is cleared and the loading flag kept |
| FormulaViewModel.ViewModel.SetLoading | app/src/main/java/com/mathformulas/app/viewmodel/FormulaViewModel.kt:172-174 | the loading flag is set and the error kept |

## Findings

| source | as written | input that shows it | evidently intended | confidence | as-written member | corrected member |
|---|---|---|---|---|---|---|
| app/src/main/java/com/mathformulas/app/data/FormulaDao.kt:61-62 | `relatedFormulas LIKE '%' \|\| :formulaId \|\| '%'` tests whether the key's digits occur anywhere in the comma-separated id list | a row with `relatedFormulas = "12"` and `getRelatedFormulas(1)`: the row is returned although it names only formula 12 | return the rows whose list (`Formula.kt:28`) names the key as one of its ids | not executed; high, since any two keys where one's digits occur inside the other show it | FormulaDao.RelatedMatchesDigitsInsideAnotherId | FormulaDao.ListedRelatedFormulas |

The corrected query lists exactly the rows whose comma-separated list has an item equal to the
key's text, ignoring surrounding blanks. `FormulaDao.ListedRelatedAreFound` proves that the
query as written returns every such row, so its defect is false matches only.

## Left out

- Asynchrony and I/O: `async`/`await`, coroutines and the database driver calls become one sequential step each. Logging with `console.error` is not modelled.
- Driver errors in the React Native stores. In `DatabaseService.ts` every method catches and logs a driver failure and returns `[]`, `null` or `false`. In `database.ts` only `initDatabase` catches; every other method lets a driver error reject its promise. The model has no failing driver, except that a failed open in `initDatabase` is a parameter.
- Flow and LiveData reactivity in the Android view model. Every collector launched by `searchFormulas` or `filterByCategory` stays active, so later table changes re-emit into `filteredFormulas` from several queries. The model computes each list once, when its handler runs.
- The order of the two loads `init` launches is not modelled. The constructor gives the state before they complete, and `LoadCategories` and `LoadAllFormulas` may then run in either order.
- `FormulaRepository.kt` only forwards to the DAO, so the view model calls the table directly. `FormulaViewModelFactory` is wiring.
- `DatabaseService.ToFormula`, `MathDatabase.ToFormula`: `JSON.parse(JSON.stringify(x))` is taken to give back `x` for the list columns. The exact JSON text is modelled only where it is searched (the `tags` column of `DatabaseService.ts`).
- Unicode case folding: JavaScript `toLowerCase` and Kotlin `contains(ignoreCase = true)` are modelled as ASCII folding, which is exactly what SQLite `LIKE` does.
- Timestamps: `CURRENT_TIMESTAMP` and `new Date().toISOString()` become a strictly increasing counter. Two events within the same second, which the source leaves in unspecified order, are therefore always ordered.
- `MathDatabase.DatabaseService.GetSearchHistory`: `SELECT DISTINCT query ... ORDER BY timestamp DESC` orders by a column that is not selected, so SQLite may use any of a query's timestamps. The model orders by the latest one. The contract states the bound, distinctness, that every result was logged and that fewer than 10 results means every logged query is shown; it does not say which ten queries a longer history yields, since that depends on SQLite's choice.
- `MathDatabase.NewestQueryFirst`, `MathDatabase.DatabaseService.AddSearchHistory`: a repeated query is not promised to head the history. SQLite may order it by an older timestamp, so searching "a", "b", "a" may list "b" first. Only a query never logged before is promised to come first.
- Foreign keys from `favorites` and `recent` to `formulas` are declared but not enforced (SQLite leaves them off by default). Rows for unknown ids are kept, and the joins drop them.
- `DatabaseService.DatabaseService.InsertInitialData`: a duplicate-key failure part-way through seeding cannot occur, because the seed ids are proved distinct. The model therefore has no partial seeding.
- `HomeSearch.QuadraticFormulaFirst`: it states that the quadratic formula heads the "quad" results with relevance 18. It does not state that it is the only result; showing that no other seed text contains "quad" was beyond the verifier on the long literals.
- `FormulaDao.Inserted`: keys are unbounded integers. Kotlin's 32-bit `Int` key and SQLite's failure once the AUTOINCREMENT sequence reaches its 64-bit maximum are not modelled.
- The other Room and expo-sqlite plumbing is not modelled: `FormulaDatabase.kt` (singleton, callback, asset seeding), migrations and dependency injection.
- The `com/example/...` Kotlin variant and all screen layout, navigation and theming are not part of this model.

/**
 * The Android app's view model: the search query, the selected category, the
 * category chips, the listed formulas and the loading/error state, and the
 * rules that combine a query with a category.
 *
 * Each repository call is modelled as completing at once, reading the table
 * as it is at that moment. A call that throws is modelled by a `failure`
 * argument holding the exception's message.
 */
module FormulaViewModel {
  import opened Options
  import opened Text
  import opened Seqs
  import opened Ordering
  import opened FormulaDao

  /** The chip that stands for no category filter. */
  const AllChip := "All"

  /** `FormulaUiState`. */
  datatype UiState = UiState(isLoading: bool, error: Option<string>)

  /** The filter `filterByCategory` applies inside a category: name, description or tags, ignoring case. */
  predicate TextHit(f: Formula, query: string)
  {
    ContainsIgnoringCase(f.name, query) || ContainsIgnoringCase(f.description, query) || ContainsIgnoringCase(f.tags, query)
  }

  /** The rows `searchFormulas` shows: of the category unless "All", and a search hit unless the query is blank. */
  predicate SearchShows(f: Formula, query: string, category: string)
  {
    (category != AllChip ==> f.category == category) && (!IsBlank(query) ==> SearchHit(f, query))
  }

  /**
   * The rows `filterByCategory` shows: under "All", search hits unless the
   * query is blank; under a category, its rows that are text hits unless the
   * query is blank.
   */
  predicate FilterShows(f: Formula, category: string, query: string)
  {
    if category == AllChip then IsBlank(query) || SearchHit(f, query)
    else f.category == category && (!IsBlank(query) ==> TextHit(f, query))
  }

  /**
   * What `searchFormulas(query)` lists with `category` selected: for a blank
   * query every row (of the category unless it is "All"); otherwise the
   * search results, kept to the category unless it is "All".
   */
  function SearchView(rows: seq<Formula>, query: string, category: string): (r: seq<Formula>)
    ensures forall f :: multiset(r)[f] == if SearchShows(f, query, category) then multiset(rows)[f] else 0
    ensures SortedBy(r, NameLe())
  {
    if IsBlank(query) then
      if category == AllChip then AllFormulas(rows) else FormulasByCategory(rows, category)
    else
      var found := SearchFormulas(rows, query);
      if category == AllChip then found
      else
        var r := Filter(found, CategoryIs(category));
        SortedBySubsequence(r, found, NameLe());
        r
  }

  /**
   * What `filterByCategory(category)` lists with `query` typed: under "All"
   * every row for a blank query and the search results otherwise; under a
   * category its rows, narrowed for a non-blank query to those whose name,
   * description or tags contain the query ignoring case (the concept is not
   * consulted).
   */
  function CategoryView(rows: seq<Formula>, category: string, query: string): (r: seq<Formula>)
    ensures forall f :: multiset(r)[f] == if FilterShows(f, category, query) then multiset(rows)[f] else 0
    ensures SortedBy(r, NameLe())
  {
    if category == AllChip then
      if IsBlank(query) then AllFormulas(rows) else SearchFormulas(rows, query)
    else
      var inCategory := FormulasByCategory(rows, category);
      if IsBlank(query) then inCategory
      else
        var r := Filter(inCategory, (f: Formula) => TextHit(f, query));
        SortedBySubsequence(r, inCategory, NameLe());
        r
  }

  /** Under "All", searching and then choosing the chip or the other way round list the same rows. */
  lemma {:induction false} AllChipViewsAgree(rows: seq<Formula>, query: string)
    ensures multiset(SearchView(rows, query, AllChip)) == multiset(CategoryView(rows, AllChip, query))
  {
    var a, b := SearchView(rows, query, AllChip), CategoryView(rows, AllChip, query);
    assert forall f :: multiset(a)[f] == multiset(b)[f];
  }

  /** With a blank query both handlers list the category's rows. */
  lemma {:induction false} BlankQueryViewsAgree(rows: seq<Formula>, query: string, category: string)
    requires IsBlank(query)
    ensures multiset(SearchView(rows, query, category)) == multiset(CategoryView(rows, category, query))
  {
    var a, b := SearchView(rows, query, category), CategoryView(rows, category, query);
    assert forall f :: multiset(a)[f] == multiset(b)[f];
  }

  /**
   * Inside a category and for a query without wildcards, `filterByCategory`
   * lists a subset of what `searchFormulas` lists, and the rows it drops are
   * exactly those that match on their concept alone.
   */
  lemma {:induction false} CategoryViewMissesConceptOnlyMatches(rows: seq<Formula>, query: string, category: string, f: Formula)
    requires category != AllChip && !IsBlank(query) && HasNoWildcards(query)
    ensures f in CategoryView(rows, category, query) ==> f in SearchView(rows, query, category)
    ensures f in SearchView(rows, query, category) && f !in CategoryView(rows, category, query) <==>
      && f in rows && f.category == category
      && ContainsIgnoringCase(f.concept, query) && !TextHit(f, query)
  {
    SearchHitMeaning(f, query);
    var a, b := SearchView(rows, query, category), CategoryView(rows, category, query);
    assert f in a <==> multiset(a)[f] > 0;
    assert f in b <==> multiset(b)[f] > 0;
    assert f in rows <==> multiset(rows)[f] > 0;
  }

  /** Writing `!f.isFavorite` twice from the same record writes the same flag twice. */
  lemma {:induction false} StaleToggleRepeats(rows: seq<Formula>, f: Formula)
    ensures FavoriteSet(FavoriteSet(rows, f.id, !f.isFavorite), f.id, !f.isFavorite) == FavoriteSet(rows, f.id, !f.isFavorite)
  {
    var once := FavoriteSet(rows, f.id, !f.isFavorite);
    var twice := FavoriteSet(once, f.id, !f.isFavorite);
    assert forall k | 0 <= k < |rows| :: twice[k] == once[k];
  }

  class ViewModel {
    const repository: FormulaTable
    var uiState: UiState
    var searchQuery: string
    var selectedCategory: string
    var categories: seq<string>
    var filteredFormulas: seq<Formula>

    /**
     * The state before the loads launched by `init` complete: loading, no
     * error, an empty query, the "All" chip and empty lists.
     */
    constructor(repository: FormulaTable)
      ensures this.repository == repository
      ensures uiState == UiState(true, None)
      ensures searchQuery == "" && selectedCategory == AllChip
      ensures categories == [] && filteredFormulas == []
    {
      this.repository := repository;
      uiState := UiState(true, None);
      searchQuery := "";
      selectedCategory := AllChip;
      categories := [];
      filteredFormulas := [];
    }

    /** `loadCategories`: the "All" chip followed by the stored categories, ascending. */
    method LoadCategories(failure: Option<string>)
      modifies this
      ensures failure.None? ==> categories == [AllChip] + AllCategories(repository.rows) && uiState == old(uiState)
      ensures failure.Some? ==>
        categories == old(categories) && uiState == old(uiState).(error := Some("Failed to load categories: " + failure.value))
      ensures searchQuery == old(searchQuery) && selectedCategory == old(selectedCategory)
      ensures filteredFormulas == old(filteredFormulas)
    {
      if failure.Some? {
        uiState := uiState.(error := Some("Failed to load categories: " + failure.value));
      } else {
        categories := [AllChip] + AllCategories(repository.rows);
      }
    }

    /** `loadAllFormulas`: every row by name, and loading is over either way. */
    method LoadAllFormulas(failure: Option<string>)
      modifies this
      ensures failure.None? ==> filteredFormulas == AllFormulas(repository.rows) && uiState == UiState(false, None)
      ensures failure.Some? ==>
        && filteredFormulas == old(filteredFormulas)
        && uiState == UiState(false, Some("Failed to load formulas: " + failure.value))
      ensures searchQuery == old(searchQuery) && selectedCategory == old(selectedCategory)
      ensures categories == old(categories)
    {
      if failure.Some? {
        uiState := UiState(false, Some("Failed to load formulas: " + failure.value));
      } else {
        filteredFormulas := AllFormulas(repository.rows);
        uiState := UiState(false, None);
      }
    }

    /** `searchFormulas(query)`: the query is kept even when the search fails. */
    method SearchFormulas(query: string, failure: Option<string>)
      modifies this
      ensures searchQuery == query && selectedCategory == old(selectedCategory)
      ensures failure.None? ==>
        filteredFormulas == SearchView(repository.rows, query, selectedCategory) && uiState == old(uiState)
      ensures failure.Some? ==>
        filteredFormulas == old(filteredFormulas) && uiState == old(uiState).(error := Some("Search failed: " + failure.value))
      ensures categories == old(categories)
    {
      searchQuery := query;
      if failure.Some? {
        uiState := uiState.(error := Some("Search failed: " + failure.value));
      } else {
        filteredFormulas := SearchView(repository.rows, query, selectedCategory);
      }
    }

    /** `filterByCategory(category)`: the chip is kept even when the query fails. */
    method FilterByCategory(category: string, failure: Option<string>)
      modifies this
      ensures selectedCategory == category && searchQuery == old(searchQuery)
      ensures failure.None? ==>
        filteredFormulas == CategoryView(repository.rows, category, searchQuery) && uiState == old(uiState)
      ensures failure.Some? ==>
        filteredFormulas == old(filteredFormulas) && uiState == old(uiState).(error := Some("Filter failed: " + failure.value))
      ensures categories == old(categories)
    {
      selectedCategory := category;
      if failure.Some? {
        uiState := uiState.(error := Some("Filter failed: " + failure.value));
      } else {
        filteredFormulas := CategoryView(repository.rows, category, searchQuery);
      }
    }

    /**
     * `toggleFavorite(f)`: writes the opposite of the record's flag for its
     * key, so a stored key is listed among the favorites exactly when the
     * record was not a favorite.
     */
    method ToggleFavorite(f: Formula, failure: Option<string>)
      requires repository.Valid()
      modifies this, repository
      ensures repository.Valid()
      ensures failure.None? ==>
        repository.rows == FavoriteSet(old(repository.rows), f.id, !f.isFavorite) && uiState == old(uiState)
      ensures failure.None? && FindById(old(repository.rows), f.id).Some? ==>
        (exists g | g in FavoriteFormulas(repository.rows) :: g.id == f.id) == !f.isFavorite
      ensures failure.None? ==> forall g: Formula | g.id != f.id ::
        g in FavoriteFormulas(repository.rows) <==> g in FavoriteFormulas(old(repository.rows))
      ensures failure.Some? ==>
        repository.rows == old(repository.rows) && uiState == old(uiState).(error := Some("Failed to update favorite: " + failure.value))
      ensures repository.sequence == old(repository.sequence)
      ensures searchQuery == old(searchQuery) && selectedCategory == old(selectedCategory)
      ensures categories == old(categories) && filteredFormulas == old(filteredFormulas)
    {
      if failure.Some? {
        uiState := uiState.(error := Some("Failed to update favorite: " + failure.value));
      } else {
        if FindById(repository.rows, f.id).Some? {
          FavoriteSetListsKey(repository.rows, f.id, !f.isFavorite);
        }
        FavoriteSetListsOthers(repository.rows, f.id, !f.isFavorite);
        repository.UpdateFavoriteStatus(f.id, !f.isFavorite);
      }
    }

    /** `getFormulaById(id)`: the stored row, or null when there is none or the read fails. */
    method GetFormulaById(id: int, failure: Option<string>) returns (r: Option<Formula>)
      requires repository.Valid()
      modifies this
      ensures failure.None? ==> r == repository.GetFormulaById(id) && uiState == old(uiState)
      ensures failure.Some? ==>
        r.None? && uiState == old(uiState).(error := Some("Failed to load formula: " + failure.value))
      ensures searchQuery == old(searchQuery) && selectedCategory == old(selectedCategory)
      ensures categories == old(categories) && filteredFormulas == old(filteredFormulas)
    {
      if failure.Some? {
        uiState := uiState.(error := Some("Failed to load formula: " + failure.value));
        r := None;
      } else {
        r := repository.GetFormulaById(id);
      }
    }

    /** `clearError`: the error goes, the loading flag stays. */
    method ClearError()
      modifies this
      ensures uiState == UiState(old(uiState.isLoading), None)
      ensures searchQuery == old(searchQuery) && selectedCategory == old(selectedCategory)
      ensures categories == old(categories) && filteredFormulas == old(filteredFormulas)
    {
      uiState := uiState.(error := None);
    }

    /** `setLoading`: the loading flag, the error stays. */
    method SetLoading(isLoading: bool)
      modifies this
      ensures uiState == UiState(isLoading, old(uiState.error))
      ensures searchQuery == old(searchQuery) && selectedCategory == old(selectedCategory)
      ensures categories == old(categories) && filteredFormulas == old(filteredFormulas)
    {
      uiState := uiState.(isLoading := isLoading);
    }
  }
}

/**
 * The category screen: the formulas of one category, narrowed by an optional
 * subcategory chip and an optional difficulty chip, and the chip lists
 * themselves.
 *
 * A selection is JavaScript-truthy only when it is a non-empty string, so a
 * selected empty subcategory filters nothing. Pressing the selected chip
 * clears the selection; pressing any other chip selects it.
 */
module CategoryFilter {
  import opened Options
  import opened Seqs
  import opened Catalog

  /** `categoryFormulas`: the formulas filed under `categoryId`, in catalog order. */
  function CategoryFormulas(catalog: seq<Formula>, categoryId: string): (r: seq<Formula>)
    ensures IsSubsequence(r, catalog)
    ensures forall f :: f in r <==> f in catalog && f.category == categoryId
  {
    Filter(catalog, (f: Formula) => f.category == categoryId)
  }

  /** A subcategory selection that filters: a non-empty string. */
  predicate Narrows(selected: Option<string>)
  {
    selected.Some? && selected.value != ""
  }

  /** The filter callback of `filteredFormulas`. */
  predicate Keeps(f: Formula, subcategory: Option<string>, difficulty: Option<Difficulty>)
  {
    && !(Narrows(subcategory) && f.subcategory != subcategory)
    && !(difficulty.Some? && f.difficulty != difficulty.value)
  }

  /**
   * `filteredFormulas`: the category's formulas whose subcategory is the
   * selected one (when one is selected) and whose difficulty is the selected
   * one (when one is selected), in catalog order.
   */
  function FilteredFormulas(catalog: seq<Formula>, categoryId: string,
                            subcategory: Option<string>, difficulty: Option<Difficulty>): (r: seq<Formula>)
    ensures IsSubsequence(r, CategoryFormulas(catalog, categoryId))
    ensures forall f :: f in r <==>
      && f in catalog && f.category == categoryId
      && (Narrows(subcategory) ==> f.subcategory == subcategory)
      && (difficulty.Some? ==> f.difficulty == difficulty.value)
  {
    Filter(CategoryFormulas(catalog, categoryId), (f: Formula) => Keeps(f, subcategory, difficulty))
  }

  /** With no selection, or only an empty subcategory selected, every formula of the category is shown. */
  lemma NoSelectionShowsCategory(catalog: seq<Formula>, categoryId: string, subcategory: Option<string>)
    requires !Narrows(subcategory)
    ensures FilteredFormulas(catalog, categoryId, subcategory, None) == CategoryFormulas(catalog, categoryId)
  {
    FilterKeepsAll(CategoryFormulas(catalog, categoryId), (f: Formula) => Keeps(f, subcategory, None));
  }

  /** The subcategory names of `formulas` that are present and non-empty, in order. */
  function PresentSubcategories(formulas: seq<Formula>): (r: seq<string>)
    ensures forall x :: x in r <==> x != "" && exists f | f in formulas :: f.subcategory == Some(x)
  {
    if formulas == [] then []
    else
      var f := formulas[0];
      assert formulas == [f] + formulas[1..];
      (if f.subcategory.Some? && f.subcategory.value != "" then [f.subcategory.value] else [])
      + PresentSubcategories(formulas[1..])
  }

  /**
   * `subcategories`: each non-empty subcategory of the category's formulas
   * once, in the order it first appears.
   */
  function Subcategories(catalog: seq<Formula>, categoryId: string): (r: seq<string>)
    ensures forall i, j | 0 <= i < j < |r| :: r[i] != r[j]
    ensures "" !in r
    ensures forall x :: x in r <==> exists f | f in catalog :: f.category == categoryId && f.subcategory == Some(x) && x != ""
    ensures forall i, j | 0 <= i < j < |r| ::
      FirstIndex(PresentSubcategories(CategoryFormulas(catalog, categoryId)), r[i])
      < FirstIndex(PresentSubcategories(CategoryFormulas(catalog, categoryId)), r[j])
  {
    var members := CategoryFormulas(catalog, categoryId);
    var present := PresentSubcategories(members);
    var r := Dedup(present);
    assert forall x :: x in r <==> x in present;
    assert "" !in present;
    assert forall x :: x in present <==> x != "" && exists f | f in members :: f.subcategory == Some(x);
    r
  }

  /** The difficulties of `formulas`, in order. */
  function DifficultiesOf(formulas: seq<Formula>): (r: seq<Difficulty>)
    ensures |r| == |formulas|
    ensures forall k | 0 <= k < |formulas| :: r[k] == formulas[k].difficulty
  {
    seq(|formulas|, k requires 0 <= k < |formulas| => formulas[k].difficulty)
  }

  lemma DifficultiesOfMembers(formulas: seq<Formula>)
    ensures forall d :: d in DifficultiesOf(formulas) <==> exists f | f in formulas :: f.difficulty == d
  {
    var ds := DifficultiesOf(formulas);
    forall d | d in ds ensures exists f | f in formulas :: f.difficulty == d {
      var k :| 0 <= k < |ds| && ds[k] == d;
      assert formulas[k] in formulas;
    }
    forall d | exists f | f in formulas :: f.difficulty == d ensures d in ds {
      var f :| f in formulas && f.difficulty == d;
      var k :| 0 <= k < |formulas| && formulas[k] == f;
      assert ds[k] == d;
    }
  }

  /**
   * `difficulties`: each difficulty of the category's formulas once, in the
   * order it first appears.
   */
  function Difficulties(catalog: seq<Formula>, categoryId: string): (r: seq<Difficulty>)
    ensures forall i, j | 0 <= i < j < |r| :: r[i] != r[j]
    ensures forall i | 0 <= i < |r| :: r[i] in DifficultiesOf(CategoryFormulas(catalog, categoryId))
    ensures forall i, j | 0 <= i < j < |r| ::
      FirstIndex(DifficultiesOf(CategoryFormulas(catalog, categoryId)), r[i])
      < FirstIndex(DifficultiesOf(CategoryFormulas(catalog, categoryId)), r[j])
  {
    Dedup(DifficultiesOf(CategoryFormulas(catalog, categoryId)))
  }

  /** Every difficulty chip belongs to a formula of the category, and every such difficulty has a chip. */
  lemma DifficultiesOccur(catalog: seq<Formula>, categoryId: string)
    ensures forall d :: d in Difficulties(catalog, categoryId) <==>
      exists f | f in catalog :: f.category == categoryId && f.difficulty == d
  {
    DifficultiesOfMembers(CategoryFormulas(catalog, categoryId));
  }

  /** The chip handler: pressing the selected chip clears it, pressing another selects that one. */
  function Toggle<T(==)>(selected: Option<T>, chip: T): (r: Option<T>)
    ensures selected == Some(chip) ==> r == None
    ensures selected != Some(chip) ==> r == Some(chip)
  {
    if selected == Some(chip) then None else Some(chip)
  }

  /**
   * Pressing the same chip twice restores the earlier selection exactly when
   * nothing or that chip was selected; from another chip it ends with nothing
   * selected.
   */
  lemma ToggleTwice<T>(selected: Option<T>, chip: T)
    ensures Toggle(Toggle(selected, chip), chip) == selected <==> selected == None || selected == Some(chip)
    ensures Toggle(Toggle(selected, chip), chip) == if selected == Some(chip) then selected else None
  {
  }

  /** The category screen's filter state. */
  class CategoryScreen {
    const category: Category
    const formulas: seq<Formula>
    var selectedSubcategory: Option<string>
    var selectedDifficulty: Option<Difficulty>

    constructor(category: Category)
      ensures this.category == category && formulas == Catalog.Formulas
      ensures selectedSubcategory == None && selectedDifficulty == None
    {
      this.category := category;
      formulas := Catalog.Formulas;
      selectedSubcategory := None;
      selectedDifficulty := None;
    }

    /** The formulas the screen lists. */
    function Shown(): seq<Formula>
      reads this
    {
      FilteredFormulas(formulas, category.id, selectedSubcategory, selectedDifficulty)
    }

    /** Pressing the chip of `subcategory`. */
    method PressSubcategoryChip(subcategory: string)
      modifies this
      ensures selectedSubcategory == Toggle(old(selectedSubcategory), subcategory)
      ensures selectedDifficulty == old(selectedDifficulty)
    {
      selectedSubcategory := if selectedSubcategory == Some(subcategory) then None else Some(subcategory);
    }

    /** Pressing the chip of `difficulty`. */
    method PressDifficultyChip(difficulty: Difficulty)
      modifies this
      ensures selectedDifficulty == Toggle(old(selectedDifficulty), difficulty)
      ensures selectedSubcategory == old(selectedSubcategory)
    {
      selectedDifficulty := if selectedDifficulty == Some(difficulty) then None else Some(difficulty);
    }

    /** `clearFilters`: drops both selections, so the whole category is listed again. */
    method ClearFilters()
      modifies this
      ensures selectedSubcategory == None && selectedDifficulty == None
      ensures Shown() == CategoryFormulas(formulas, category.id)
    {
      selectedSubcategory := None;
      selectedDifficulty := None;
      NoSelectionShowsCategory(formulas, category.id, None);
    }
  }
}

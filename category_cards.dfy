/** The category management grid: the category list held as component state, a search over
    names, descriptions and keywords, the active toggle, and the append of a new category. */
module CategoryCards {

  import opened Wrappers
  import JsText
  import Lists
  import AddCategoryModal

  /** A category. The sample categories have no `weeklyGrowth` or `accuracy`; added ones get 0. */
  datatype Category = Category(id: int, name: string, color: string, description: string, keywords: seq<string>,
                               articleCount: int, weeklyGrowth: Option<int>, accuracy: Option<int>, isActive: bool)

  const InitialCategories: seq<Category> := [
    Category(1, "Technology", "#3b82f6", "AI, software, hardware, innovation, digital transformation",
             ["AI", "machine learning", "software", "hardware", "tech", "digital", "innovation"], 2847, None, None, true),
    Category(2, "Business", "#10b981", "Finance, markets, economy, corporate news, startups",
             ["finance", "market", "economy", "business", "startup", "corporate", "investment"], 1924, None, None, true),
    Category(3, "Health", "#f59e0b", "Medical research, healthcare, wellness, public health",
             ["health", "medical", "healthcare", "wellness", "medicine", "research", "treatment"], 1356, None, None, true),
    Category(4, "Science", "#8b5cf6", "Research, discoveries, climate, space, environment",
             ["science", "research", "discovery", "climate", "space", "environment", "study"], 987, None, None, true),
    Category(5, "Politics", "#ef4444", "Government, policy, elections, international relations",
             ["politics", "government", "policy", "election", "parliament", "minister", "law"], 1634, None, None, true),
    Category(6, "Sports", "#06b6d4", "Athletics, competitions, teams, player news",
             ["sports", "football", "basketball", "tennis", "athletics", "competition", "team"], 798, None, None, true),
    Category(7, "Entertainment", "#ec4899", "Movies, music, celebrities, culture, media",
             ["entertainment", "movie", "music", "celebrity", "culture", "media", "show"], 1245, None, None, true),
    Category(8, "Education", "#84cc16", "Schools, universities, learning, academic research",
             ["education", "school", "university", "learning", "student", "academic", "research"], 543, None, None, false)
  ]

  // ---------------------------------------------------------------------------
  // Search
  // ---------------------------------------------------------------------------

  /** Case-insensitive substring test. */
  predicate ContainsIgnoringCase(text: string, query: string) {
    JsText.Includes(JsText.Lower(text), JsText.Lower(query))
  }

  /** The search test of `filteredCategories`: the query in the name, the description or a keyword. */
  predicate Matches(c: Category, query: string) {
    ContainsIgnoringCase(c.name, query) || ContainsIgnoringCase(c.description, query)
    || exists i :: 0 <= i < |c.keywords| && ContainsIgnoringCase(c.keywords[i], query)
  }

  /** `filteredCategories`: the matching categories, in list order. */
  function FilteredCategories(categories: seq<Category>, query: string): (r: seq<Category>)
    ensures Lists.IsSubsequence(r, categories)
    ensures forall i :: 0 <= i < |r| ==> Matches(r[i], query)
    ensures forall i :: 0 <= i < |categories| && Matches(categories[i], query) ==> categories[i] in r
    ensures multiset(r) <= multiset(categories)
    ensures forall i :: 0 <= i < |categories| && Matches(categories[i], query) ==>
      multiset(r)[categories[i]] == multiset(categories)[categories[i]]
  {
    var matches := (c: Category) => Matches(c, query);
    Lists.FilterSubMultiset(categories, matches);
    Lists.FilterKeepsCounts(categories, matches);
    Lists.Filter(categories, matches)
  }

  /** The empty query shows every category. */
  lemma EmptyQueryShowsAll(categories: seq<Category>)
    ensures FilteredCategories(categories, "") == categories
  {
    forall c: Category ensures Matches(c, "") {
      JsText.IncludesEmpty(JsText.Lower(c.name));
    }
    Lists.FilterAll(categories, (c: Category) => Matches(c, ""));
  }

  /** A keyword hit is enough: a category whose keyword contains the query (ignoring case) is shown,
      whatever its name and description. */
  lemma KeywordHitShows(categories: seq<Category>, query: string, i: nat, k: nat)
    requires i < |categories| && k < |categories[i].keywords|
    requires ContainsIgnoringCase(categories[i].keywords[k], query)
    ensures categories[i] in FilteredCategories(categories, query)
  {
    assert Matches(categories[i], query);
  }

  /** The search ignores letter case in the query. */
  lemma SearchIgnoresCase(c: Category, q1: string, q2: string)
    requires JsText.Lower(q1) == JsText.Lower(q2)
    ensures Matches(c, q1) == Matches(c, q2)
  {
  }

  // ---------------------------------------------------------------------------
  // Toggle and append
  // ---------------------------------------------------------------------------

  /** `handleToggleActive`: flip `isActive` of the category with the id; every other category is
      kept as it is. */
  function ToggleActive(categories: seq<Category>, id: int): (r: seq<Category>)
    ensures |r| == |categories|
    ensures forall i :: 0 <= i < |categories| && categories[i].id == id ==>
      r[i] == categories[i].(isActive := !categories[i].isActive)
    ensures forall i :: 0 <= i < |categories| && categories[i].id != id ==> r[i] == categories[i]
  {
    Lists.UpdateWhere(categories, (c: Category) => c.id == id, (c: Category) => c.(isActive := !c.isActive))
  }

  /** Toggling the same id twice restores the list. */
  lemma ToggleTwice(categories: seq<Category>, id: int)
    ensures ToggleActive(ToggleActive(categories, id), id) == categories
  {
    Lists.UpdateWhereInvolution(categories, (c: Category) => c.id == id, (c: Category) => c.(isActive := !c.isActive));
  }

  /** `handleAddCategory`: the form's fields become a category appended at the end, with id one more
      than the current length, no articles yet, zero growth and accuracy, and active. */
  function AddCategory(categories: seq<Category>, form: AddCategoryModal.CategoryForm): (r: seq<Category>)
    ensures |r| == |categories| + 1 && r[..|categories|] == categories
    ensures var c := r[|categories|];
      c.id == |categories| + 1 && c.articleCount == 0 && c.isActive
      && c.weeklyGrowth == Some(0) && c.accuracy == Some(0)
      && c.name == form.name && c.description == form.description && c.color == form.color && c.keywords == form.keywords
  {
    categories + [Category(|categories| + 1, form.name, form.color, form.description, form.keywords, 0, Some(0), Some(0), true)]
  }

  /** The ids are the positions, counted from 1. The sample list has this shape. */
  predicate IdsArePositions(categories: seq<Category>) {
    forall i :: 0 <= i < |categories| ==> categories[i].id == i + 1
  }

  /** With ids that are positions, every id names one category at most. */
  lemma PositionIdsUnique(categories: seq<Category>)
    requires IdsArePositions(categories)
    ensures forall i, j :: 0 <= i < j < |categories| ==> categories[i].id != categories[j].id
  {
  }

  /** Toggling and appending keep ids equal to positions, so the derived id of an appended category
      never repeats an existing one. */
  lemma OperationsKeepPositionIds(categories: seq<Category>, id: int, form: AddCategoryModal.CategoryForm)
    requires IdsArePositions(categories)
    ensures IdsArePositions(ToggleActive(categories, id))
    ensures IdsArePositions(AddCategory(categories, form))
    ensures forall i :: 0 <= i < |categories| ==> categories[i].id != AddCategory(categories, form)[|categories|].id
  {
    var r := AddCategory(categories, form);
    forall i | 0 <= i < |r| ensures r[i].id == i + 1 {
      if i < |categories| {
        assert r[i] == r[..|categories|][i];
      }
    }
  }

  /** The category grid and its list. */
  class Grid {
    var categories: seq<Category>

    constructor ()
      ensures categories == InitialCategories
      ensures IdsArePositions(categories)
    {
      categories := InitialCategories;
    }

    function Filtered(query: string): seq<Category>
      reads this
    {
      FilteredCategories(categories, query)
    }

    method HandleToggleActive(id: int)
      modifies this
      ensures categories == ToggleActive(old(categories), id)
    {
      categories := ToggleActive(categories, id);
    }

    /** `handleAddCategory(newCategory)`, with the form the dialog submitted. */
    method HandleAddCategory(form: AddCategoryModal.CategoryForm)
      modifies this
      ensures categories == AddCategory(old(categories), form)
    {
      categories := categories + [Category(|categories| + 1, form.name, form.color, form.description, form.keywords, 0, Some(0), Some(0), true)];
    }
  }
}

/** The news table: the list of articles held as component state, the verify action that marks one
    article verified, and the filtered view the table shows for the current filter bar state. */
module NewsTable {

  import opened Wrappers
  import Lists
  import JsText
  import NewsFilters

  datatype NewsItem = NewsItem(id: int, title: string, category: string, status: string, date: string, time: string)

  /** The articles the table starts with. */
  const InitialNewsData: seq<NewsItem> := [
    NewsItem(1, "Breaking: Tech Giants Announce New AI Partnership", "Technology", "published", "2025-08-15", "14:30"),
    NewsItem(2, "Global Climate Summit Reaches Historic Agreement", "Environment", "verified", "2025-08-15", "12:15"),
    NewsItem(3, "Market Update: Stocks Rise on Positive Economic Data", "Business", "pending", "2025-08-25", "10:45"),
    NewsItem(4, "Sports: Championship Finals Set for This Weekend", "Sports", "verified", "2025-07-15", "09:20"),
    NewsItem(5, "Healthcare Innovation: New Treatment Shows Promise", "Health", "pending", "2025-07-25", "16:45"),
    NewsItem(6, "Entertainment Weekly: Award Season Predictions", "Entertainment", "published", "2025-07-25", "15:30"),
    NewsItem(7, "Political Analysis: Election Campaign Updates", "Politics", "verified", "2025-06-23", "13:15"),
    NewsItem(8, "Science Discovery: Breakthrough in Quantum Computing", "Science", "pending", "2025-06-19", "11:00")
  ]

  // ---------------------------------------------------------------------------
  // Verify by id
  // ---------------------------------------------------------------------------

  /** The `handleVerifyNews` update: every article with the id gets status "verified"; every other
      article, and every other field, is kept; length and order are preserved. */
  function VerifyById(data: seq<NewsItem>, newsId: int): (r: seq<NewsItem>)
    ensures |r| == |data|
    ensures forall i :: 0 <= i < |data| && data[i].id == newsId ==> r[i] == data[i].(status := "verified")
    ensures forall i :: 0 <= i < |data| && data[i].id != newsId ==> r[i] == data[i]
  {
    Lists.UpdateWhere(data, (n: NewsItem) => n.id == newsId, (n: NewsItem) => n.(status := "verified"))
  }

  /** Verifying an id no article has changes nothing. */
  lemma VerifyAbsentId(data: seq<NewsItem>, newsId: int)
    requires forall i :: 0 <= i < |data| ==> data[i].id != newsId
    ensures VerifyById(data, newsId) == data
  {
    Lists.UpdateWhereNone(data, (n: NewsItem) => n.id == newsId, (n: NewsItem) => n.(status := "verified"));
  }

  /** Verifying the same id twice is verifying it once. */
  lemma VerifyTwice(data: seq<NewsItem>, newsId: int)
    ensures VerifyById(VerifyById(data, newsId), newsId) == VerifyById(data, newsId)
  {
    Lists.UpdateWhereIdempotent(data, (n: NewsItem) => n.id == newsId, (n: NewsItem) => n.(status := "verified"));
  }

  /** The verify button shows only on pending articles. */
  predicate ShowVerifyButton(n: NewsItem) {
    n.status == "pending"
  }

  /** Once an id is verified, no article with that id offers the verify button any more. */
  lemma VerifiedLosesButton(data: seq<NewsItem>, newsId: int)
    ensures forall i :: 0 <= i < |data| && data[i].id == newsId ==> !ShowVerifyButton(VerifyById(data, newsId)[i])
    ensures forall i :: 0 <= i < |data| && data[i].id != newsId ==>
      ShowVerifyButton(VerifyById(data, newsId)[i]) == ShowVerifyButton(data[i])
  {
  }

  /** The success toast for a verified article. */
  function VerifiedToast(title: string): string {
    "\"" + title + "\" has been verified successfully!"
  }

  // ---------------------------------------------------------------------------
  // Filtering
  // ---------------------------------------------------------------------------

  /** The search test: an empty search passes; otherwise the lowercased title must contain the
      lowercased search. */
  predicate PassesSearch(n: NewsItem, search: string) {
    search == "" || JsText.Includes(JsText.Lower(n.title), JsText.Lower(search))
  }

  /** The category and status tests: `"all"` passes everything, any other value wants equality. */
  predicate PassesCategory(n: NewsItem, category: string) {
    category == "all" || n.category == category
  }

  predicate PassesStatus(n: NewsItem, status: string) {
    status == "all" || n.status == status
  }

  /** The date test: `"all"` passes; other ranges are judged by `inDateRange`, which stands for the
      comparison with today's date. */
  predicate PassesDate(n: NewsItem, dateRange: string, inDateRange: (string, NewsItem) -> bool) {
    dateRange == "all" || inDateRange(dateRange, n)
  }

  predicate Passes(n: NewsItem, f: NewsFilters.FilterState, inDateRange: (string, NewsItem) -> bool) {
    PassesSearch(n, f.search) && PassesCategory(n, f.category) && PassesStatus(n, f.status)
    && PassesDate(n, f.dateRange, inDateRange)
  }

  /** `filteredNewsData`: all articles when no filters were passed in, else the passing ones, in
      their original order. */
  function FilteredNews(data: seq<NewsItem>, filters: Option<NewsFilters.FilterState>,
                        inDateRange: (string, NewsItem) -> bool): (r: seq<NewsItem>)
    ensures filters.None? ==> r == data
    ensures Lists.IsSubsequence(r, data)
    ensures filters.Some? ==> forall i :: 0 <= i < |r| ==> Passes(r[i], filters.value, inDateRange)
    ensures filters.Some? ==> forall i :: 0 <= i < |data| && Passes(data[i], filters.value, inDateRange) ==> data[i] in r
    ensures multiset(r) <= multiset(data)
    ensures filters.Some? ==> forall i :: 0 <= i < |data| && Passes(data[i], filters.value, inDateRange) ==>
      multiset(r)[data[i]] == multiset(data)[data[i]]
  {
    if filters.None? then
      Lists.SubsequenceSelf(data);
      data
    else
      var passes := (n: NewsItem) => Passes(n, filters.value, inDateRange);
      Lists.FilterSubMultiset(data, passes);
      Lists.FilterKeepsCounts(data, passes);
      Lists.Filter(data, passes)
  }

  /** The table never shows more articles than it holds. */
  lemma ShownAtMostTotal(data: seq<NewsItem>, filters: Option<NewsFilters.FilterState>,
                         inDateRange: (string, NewsItem) -> bool)
    ensures |FilteredNews(data, filters, inDateRange)| <= |data|
  {
    Lists.SubsequenceLength(FilteredNews(data, filters, inDateRange), data);
  }

  /** The default filter state passes every article. */
  lemma DefaultFiltersShowAll(data: seq<NewsItem>, inDateRange: (string, NewsItem) -> bool)
    ensures FilteredNews(data, Some(NewsFilters.Default), inDateRange) == data
  {
    Lists.FilterAll(data, (n: NewsItem) => Passes(n, NewsFilters.Default, inDateRange));
  }

  /** The search ignores letter case: searches that lowercase alike select alike. */
  lemma SearchIgnoresCase(n: NewsItem, s1: string, s2: string)
    requires JsText.Lower(s1) == JsText.Lower(s2)
    ensures PassesSearch(n, s1) == PassesSearch(n, s2)
  {
    assert |s1| == |JsText.Lower(s1)| == |JsText.Lower(s2)| == |s2|;
  }

  /** A non-empty search passes exactly the articles whose lowercased title has the lowercased
      search at some position. */
  lemma SearchIsSubstringMatch(n: NewsItem, search: string)
    requires search != ""
    ensures PassesSearch(n, search) <==> exists i :: JsText.OccursAt(JsText.Lower(n.title), JsText.Lower(search), i)
  {
    assert PassesSearch(n, search) == JsText.Includes(JsText.Lower(n.title), JsText.Lower(search));
    JsText.IncludesIff(JsText.Lower(n.title), JsText.Lower(search));
  }

  /** The " (filtered)" suffix of the results counter. */
  function FilteredSuffix(filters: Option<NewsFilters.FilterState>): (suffix: string)
    ensures suffix == " (filtered)" || suffix == ""
  {
    if filters.Some? && NewsFilters.HasActiveFilters(filters.value) then " (filtered)" else ""
  }

  /** The suffix shows exactly when filters were passed in and differ from the default state. */
  lemma SuffixIffNotDefault(filters: Option<NewsFilters.FilterState>)
    ensures FilteredSuffix(filters) == " (filtered)" <==> filters.Some? && filters.value != NewsFilters.Default
  {
    if filters.Some? {
      NewsFilters.ActiveIff(filters.value);
    }
  }

  /** The news table component and its article list. */
  class Table {
    var newsData: seq<NewsItem>

    constructor ()
      ensures newsData == InitialNewsData
    {
      newsData := InitialNewsData;
    }

    /** `handleVerifyNews`: marks the article verified and returns the toast text, when the id is
        in the list. */
    method HandleVerifyNews(newsId: int) returns (toast: Option<string>)
      modifies this
      ensures newsData == VerifyById(old(newsData), newsId)
      ensures toast.None? <==> forall i :: 0 <= i < |old(newsData)| ==> old(newsData)[i].id != newsId
      ensures toast.Some? ==> exists i :: 0 <= i < |old(newsData)| && old(newsData)[i].id == newsId
                                          && (forall j :: 0 <= j < i ==> old(newsData)[j].id != newsId)
                                          && toast.value == VerifiedToast(old(newsData)[i].title)
    {
      var before := newsData;
      newsData := VerifyById(newsData, newsId);
      var item := Lists.Find(before, (n: NewsItem) => n.id == newsId);
      toast := if item.Some? then Some(VerifiedToast(item.value.title)) else None;
    }

    function Shown(filters: Option<NewsFilters.FilterState>, inDateRange: (string, NewsItem) -> bool): seq<NewsItem>
      reads this
    {
      FilteredNews(newsData, filters, inDateRange)
    }
  }
}

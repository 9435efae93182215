/** The news filter bar: a four-field filter record, edited one field at a time, reset as a
    whole, and reported to an optional listener after every change. */
module NewsFilters {

  datatype FilterKey = Search | Category | Status | DateRange

  datatype FilterState = FilterState(search: string, category: string, status: string, dateRange: string)

  /** The state the bar starts in and `clearFilters` returns to. */
  const Default: FilterState := FilterState("", "all", "all", "all")

  /** `filters[key]`. */
  function Field(f: FilterState, key: FilterKey): string {
    match key
    case Search => f.search
    case Category => f.category
    case Status => f.status
    case DateRange => f.dateRange
  }

  /** The default of one field: the empty search, `"all"` for the three selects. */
  function DefaultValue(key: FilterKey): (v: string)
    ensures v == Field(Default, key)
    ensures v == "" <==> key == Search
  {
    if key == Search then "" else "all"
  }

  /** `{ ...filters, [key]: value }`. */
  function Update(f: FilterState, key: FilterKey, value: string): (r: FilterState)
    ensures Field(r, key) == value
    ensures forall k :: k != key ==> Field(r, k) == Field(f, k)
  {
    match key
    case Search => f.(search := value)
    case Category => f.(category := value)
    case Status => f.(status := value)
    case DateRange => f.(dateRange := value)
  }

  /** `hasActiveFilters`. */
  predicate HasActiveFilters(f: FilterState) {
    f.search != "" || f.category != "all" || f.status != "all" || f.dateRange != "all"
  }

  /** Two filter states with the same four fields are the same state. */
  lemma FieldsDetermineState(f: FilterState, g: FilterState)
    requires forall k :: Field(f, k) == Field(g, k)
    ensures f == g
  {
    assert Field(f, Search) == Field(g, Search) && Field(f, Category) == Field(g, Category);
    assert Field(f, Status) == Field(g, Status) && Field(f, DateRange) == Field(g, DateRange);
  }

  /** Filters are active exactly when some field differs from its default, that is, exactly when
      the state is not the default one. */
  lemma ActiveIff(f: FilterState)
    ensures HasActiveFilters(f) <==> exists k :: Field(f, k) != DefaultValue(k)
    ensures HasActiveFilters(f) <==> f != Default
  {
    if f.search != "" {
      assert Field(f, Search) != DefaultValue(Search);
    } else if f.category != "all" {
      assert Field(f, Category) != DefaultValue(Category);
    } else if f.status != "all" {
      assert Field(f, Status) != DefaultValue(Status);
    } else if f.dateRange != "all" {
      assert Field(f, DateRange) != DefaultValue(DateRange);
    }
  }

  /** A later update of the same field overrides an earlier one. */
  lemma UpdateOverrides(f: FilterState, key: FilterKey, a: string, b: string)
    ensures Update(Update(f, key, a), key, b) == Update(f, key, b)
  {
    FieldsDetermineState(Update(Update(f, key, a), key, b), Update(f, key, b));
  }

  /** Updates of different fields commute. */
  lemma UpdatesCommute(f: FilterState, k1: FilterKey, a: string, k2: FilterKey, b: string)
    requires k1 != k2
    ensures Update(Update(f, k1, a), k2, b) == Update(Update(f, k2, b), k1, a)
  {
    FieldsDetermineState(Update(Update(f, k1, a), k2, b), Update(Update(f, k2, b), k1, a));
  }

  /** Removing the four badges one by one, from any state, ends in the default state, which is
      what "Clear All" gives at once. */
  lemma RemovingEveryBadgeClears(f: FilterState)
    ensures Update(Update(Update(Update(f, Search, DefaultValue(Search)), Category, DefaultValue(Category)),
                   Status, DefaultValue(Status)), DateRange, DefaultValue(DateRange)) == Default
  {
    var r := Update(Update(Update(Update(f, Search, DefaultValue(Search)), Category, DefaultValue(Category)),
                    Status, DefaultValue(Status)), DateRange, DefaultValue(DateRange));
    FieldsDetermineState(r, Default);
  }

  /** The filter bar. `hasListener` says whether an `onFiltersChange` callback was passed;
      `notified` is every state handed to it, in order. */
  class FilterBar {
    var filters: FilterState
    var notified: seq<FilterState>
    const hasListener: bool

    constructor (hasListener: bool)
      ensures filters == Default && notified == [] && this.hasListener == hasListener
      ensures !ActiveFilters()
    {
      filters := Default;
      notified := [];
      this.hasListener := hasListener;
    }

    function ActiveFilters(): bool
      reads this
    {
      HasActiveFilters(filters)
    }

    /** `updateFilter(key, value)`: only `key` changes, and the listener sees the new state. */
    method UpdateFilter(key: FilterKey, value: string)
      modifies this
      ensures filters == Update(old(filters), key, value)
      ensures notified == old(notified) + (if hasListener then [filters] else [])
    {
      var newFilters := Update(filters, key, value);
      filters := newFilters;
      if hasListener {
        notified := notified + [newFilters];
      }
    }

    /** `clearFilters`: back to the default state, whatever came before. */
    method ClearFilters()
      modifies this
      ensures filters == Default && !ActiveFilters()
      ensures notified == old(notified) + (if hasListener then [Default] else [])
    {
      filters := Default;
      if hasListener {
        notified := notified + [Default];
      }
    }

    /** The close icon of an active-filter badge: reset that field, and only that field. */
    method RemoveBadge(key: FilterKey)
      modifies this
      ensures Field(filters, key) == DefaultValue(key)
      ensures forall k :: k != key ==> Field(filters, k) == Field(old(filters), k)
      ensures notified == old(notified) + (if hasListener then [filters] else [])
    {
      UpdateFilter(key, DefaultValue(key));
    }
  }
}

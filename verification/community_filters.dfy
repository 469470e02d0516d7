/**
 * The community feed's filter panel: a record of four selections, each replaced on its own,
 * and a clear back to the defaults; every change hands the new record to the optional listener.
 */
module CommunityFilters {
  /** The keys the panel's selects pass to `handleFilterChange`. */
  datatype FilterKey = CategoryKey | StatusKey | PriorityKey | SortByKey

  datatype FilterRecord = FilterRecord(category: string, status: string, priority: string, sortBy: string)

  const Default: FilterRecord := FilterRecord("all", "all", "all", "newest")

  function Get(f: FilterRecord, key: FilterKey): string
  {
    match key
    case CategoryKey => f.category
    case StatusKey => f.status
    case PriorityKey => f.priority
    case SortByKey => f.sortBy
  }

  /** `{ ...filters, [key]: value }`: the named entry is the new value, the other three are kept. */
  function WithKey(f: FilterRecord, key: FilterKey, value: string): (r: FilterRecord)
    ensures Get(r, key) == value
    ensures forall other :: other != key ==> Get(r, other) == Get(f, other)
  {
    match key
    case CategoryKey => f.(category := value)
    case StatusKey => f.(status := value)
    case PriorityKey => f.(priority := value)
    case SortByKey => f.(sortBy := value)
  }

  /** Setting a key to the value it has changes nothing. */
  lemma WithSameValue(f: FilterRecord, key: FilterKey)
    ensures WithKey(f, key, Get(f, key)) == f
  {
  }

  /** Changes to different keys commute. */
  lemma WithKeyCommutes(f: FilterRecord, k1: FilterKey, v1: string, k2: FilterKey, v2: string)
    requires k1 != k2
    ensures WithKey(WithKey(f, k1, v1), k2, v2) == WithKey(WithKey(f, k2, v2), k1, v1)
  {
  }

  /** A second change to the same key overrides the first. */
  lemma LastValueWins(f: FilterRecord, key: FilterKey, v1: string, v2: string)
    ensures WithKey(WithKey(f, key, v1), key, v2) == WithKey(f, key, v2)
  {
  }

  class CommunityFilters {
    /** Whether a listener was passed in `onFiltersChange`. */
    const hasListener: bool
    var filters: FilterRecord
    /** What the listener has been handed so far, oldest first. */
    var reported: seq<FilterRecord>

    constructor (hasListener: bool)
      ensures this.hasListener == hasListener && filters == Default && reported == []
    {
      this.hasListener := hasListener;
      filters := Default;
      reported := [];
    }

    /** `handleFilterChange`: the new record becomes the state and is what the listener gets. */
    method HandleFilterChange(key: FilterKey, value: string)
      modifies this
      ensures filters == WithKey(old(filters), key, value)
      ensures reported == old(reported) + if hasListener then [filters] else []
    {
      var newFilters := WithKey(filters, key, value);
      filters := newFilters;
      if hasListener {
        reported := reported + [newFilters];
      }
    }

    /** `clearFilters`: the defaults, whatever the state was. */
    method ClearFilters()
      modifies this
      ensures filters == Default
      ensures reported == old(reported) + if hasListener then [Default] else []
    {
      filters := Default;
      if hasListener {
        reported := reported + [Default];
      }
    }
  }

  /** Clearing twice leaves the same state as clearing once. */
  method ClearTwice(panel: CommunityFilters)
    modifies panel
    ensures panel.filters == Default
    ensures panel.hasListener ==> panel.reported == old(panel.reported) + [Default, Default]
  {
    panel.ClearFilters();
    panel.ClearFilters();
  }
}

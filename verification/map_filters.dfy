/**
 * The map's filter panel: three lists of checked values and the "show resolved" switch.
 * Checking a value appends it, unchecking removes every occurrence of it, and every change
 * (and a clear) reports the whole new filter state to the optional listener.
 */
module MapFilters {
  import opened Seqs

  /** The record handed to `onFiltersChange`. */
  datatype Filters = Filters(categories: seq<string>, statuses: seq<string>, priorities: seq<string>, showResolved: bool)

  /** The state the panel starts in and returns to on a clear. */
  const Initial: Filters := Filters([], [], [], true)

  /** The values offered by the three checkbox groups. */
  const CategoryOptions: seq<string> := ["infrastructure", "sanitation", "utilities", "safety", "environment", "other"]
  const StatusOptions: seq<string> := ["open", "in_progress", "resolved", "closed"]
  const PriorityOptions: seq<string> := ["urgent", "high", "medium", "low"]

  function Other(v: string): string -> bool
  {
    (x: string) => x != v
  }

  /** `checked ? [...list, v] : list.filter((x) => x !== v)`. */
  function Toggled(list: seq<string>, v: string, checked: bool): (r: seq<string>)
    ensures checked ==> r == list + [v]
    ensures !checked ==> v !in r && Sub(r, list)
    ensures !checked ==> forall x :: x in list && x != v ==> x in r
    ensures !checked ==> |r| == Count(list, Other(v))
  {
    if checked then list + [v]
    else
      FilterIsSub(list, Other(v));
      Filter(list, Other(v))
  }

  /** Unchecking a value that was just checked restores the list it was checked in. */
  lemma CheckThenUncheck(list: seq<string>, v: string)
    requires v !in list
    ensures Toggled(Toggled(list, v, true), v, false) == list
  {
    FilterConcat(list, [v], Other(v));
    FilterAll(list, Other(v));
  }

  /** Unchecking twice is unchecking once. */
  lemma UncheckIdempotent(list: seq<string>, v: string)
    ensures Toggled(Toggled(list, v, false), v, false) == Toggled(list, v, false)
  {
    FilterAll(Toggled(list, v, false), Other(v));
  }

  class MapFilters {
    /** Whether a listener was passed in `onFiltersChange`. */
    const hasListener: bool
    var selectedCategories: seq<string>
    var selectedStatuses: seq<string>
    var selectedPriorities: seq<string>
    var showResolved: bool
    /** What the listener has been handed so far, oldest first. */
    var reported: seq<Filters>

    function State(): Filters
      reads this
    {
      Filters(selectedCategories, selectedStatuses, selectedPriorities, showResolved)
    }

    constructor (hasListener: bool)
      ensures this.hasListener == hasListener
      ensures State() == Initial && reported == []
    {
      this.hasListener := hasListener;
      selectedCategories := [];
      selectedStatuses := [];
      selectedPriorities := [];
      showResolved := true;
      reported := [];
    }

    /** `updateFilters`: the listener, when there is one, is handed exactly these values. */
    method UpdateFilters(categories: seq<string>, statuses: seq<string>, priorities: seq<string>, resolved: bool)
      modifies this
      ensures reported == old(reported) + if hasListener then [Filters(categories, statuses, priorities, resolved)] else []
      ensures State() == old(State())
    {
      if hasListener {
        reported := reported + [Filters(categories, statuses, priorities, resolved)];
      }
    }

    method HandleCategoryChange(category: string, checked: bool)
      modifies this
      ensures State() == old(State()).(categories := Toggled(old(selectedCategories), category, checked))
      ensures reported == old(reported) + if hasListener then [State()] else []
    {
      var newCategories := Toggled(selectedCategories, category, checked);
      selectedCategories := newCategories;
      UpdateFilters(newCategories, selectedStatuses, selectedPriorities, showResolved);
    }

    method HandleStatusChange(status: string, checked: bool)
      modifies this
      ensures State() == old(State()).(statuses := Toggled(old(selectedStatuses), status, checked))
      ensures reported == old(reported) + if hasListener then [State()] else []
    {
      var newStatuses := Toggled(selectedStatuses, status, checked);
      selectedStatuses := newStatuses;
      UpdateFilters(selectedCategories, newStatuses, selectedPriorities, showResolved);
    }

    method HandlePriorityChange(priority: string, checked: bool)
      modifies this
      ensures State() == old(State()).(priorities := Toggled(old(selectedPriorities), priority, checked))
      ensures reported == old(reported) + if hasListener then [State()] else []
    {
      var newPriorities := Toggled(selectedPriorities, priority, checked);
      selectedPriorities := newPriorities;
      UpdateFilters(selectedCategories, selectedStatuses, newPriorities, showResolved);
    }

    /** The "show resolved" checkbox. */
    method HandleShowResolvedChange(checked: bool)
      modifies this
      ensures State() == old(State()).(showResolved := checked)
      ensures reported == old(reported) + if hasListener then [State()] else []
    {
      showResolved := checked;
      UpdateFilters(selectedCategories, selectedStatuses, selectedPriorities, checked);
    }

    /** `clearFilters`: back to the initial state, which is reported. */
    method ClearFilters()
      modifies this
      ensures State() == Initial
      ensures reported == old(reported) + if hasListener then [Initial] else []
    {
      selectedCategories := [];
      selectedStatuses := [];
      selectedPriorities := [];
      showResolved := true;
      UpdateFilters([], [], [], true);
    }
  }

  /** Checking a category and unchecking it again leaves the panel as it was, and reports twice. */
  method CheckUncheckRoundTrip(panel: MapFilters, category: string)
    requires category !in panel.selectedCategories
    modifies panel
    ensures panel.State() == old(panel.State())
    ensures panel.hasListener ==> |panel.reported| == |old(panel.reported)| + 2
  {
    ghost var before := panel.selectedCategories;
    panel.HandleCategoryChange(category, true);
    panel.HandleCategoryChange(category, false);
    CheckThenUncheck(before, category);
  }
}

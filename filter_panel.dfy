/**
 The filter component's state and handlers (ui_src/src/components/filter/index.js)
 as one object: the reducer's isOpen, counter and filterFields, the local
 tagList, filterTerms and searchInput, and the filtered list it publishes
 to the shared store. Each handler is one state transition.
 */
module FilterPanel {
  import opened Wrappers
  import opened Seqs
  import opened FilterSchema
  import opened FilterTerms
  import StationFilter

  class Filter {
    /** The `filterComponent` prop; only "stations" has any behaviour. */
    const component: string
    var isOpen: bool
    var counter: int
    /** filterFields: the local array and the reducer's copy are the same array. */
    var groups: seq<FilterGroup>
    var tagList: seq<Tag>
    var terms: seq<AppliedTerm>
    var searchInput: string
    /** The store's filtered list, written by handleFilter. */
    var filteredList: seq<StationItem>

    /** Groups are unique by name, the three station dimensions are checkbox
        groups, and the applied terms can be read by handleFilter. */
    ghost predicate Valid()
      reads this
    {
      UniqueNames(groups) && DimensionsAreCheckbox(groups) && TermsFilterable(terms)
    }

    constructor (component: string)
      ensures Valid()
      ensures this.component == component
      ensures !isOpen && counter == 0 && groups == [] && tagList == [] && terms == []
      ensures searchInput == "" && filteredList == []
    {
      this.component := component;
      isOpen, counter, groups, tagList := false, 0, [], [];
      terms, searchInput, filteredList := [], "", [];
    }

    /** handleSearch: the search box's new text. */
    method HandleSearch(value: string)
      modifies this`searchInput
      ensures old(Valid()) ==> Valid()
      ensures searchInput == value
    {
      searchInput := value;
    }

    /** The outcome of getTags: a response that arrived is stored, a failed
        request (None) leaves the tag list as it was. */
    method TagsFetched(response: Option<seq<Tag>>)
      modifies this`tagList
      ensures old(Valid()) ==> Valid()
      ensures tagList == if response.Some? then response.value else old(tagList)
    {
      if response.Some? {
        tagList := response.value;
      }
    }

    /** getCreatedByFilter: push the "created" group, which getFilterData
        only does when there is none yet. */
    method GetCreatedByFilter(stations: seq<StationItem>, letterColors: map<char, string>)
      requires Valid() && FindIndex(groups, "created") == -1
      requires forall i :: 0 <= i < |stations| ==> stations[i].station.createdByUser != ""
      modifies this`groups
      ensures Valid()
      ensures groups == old(groups) + [CreatedGroup(stations, letterColors)]
    {
      AppendUnique(groups, CreatedGroup(stations, letterColors));
      AppendCheckbox(groups, CreatedGroup(stations, letterColors));
      groups := groups + [CreatedGroup(stations, letterColors)];
    }

    /** getStorageTypeFilter: push the "storage" group, which getFilterData
        only does when there is none yet. */
    method GetStorageTypeFilter()
      requires Valid() && FindIndex(groups, "storage") == -1
      modifies this`groups
      ensures Valid()
      ensures groups == old(groups) + [StorageGroup()]
    {
      AppendUnique(groups, StorageGroup());
      AppendCheckbox(groups, StorageGroup());
      groups := groups + [StorageGroup()];
    }

    /** getFilterData: add the "created" and "storage" groups when absent. */
    method GetFilterData(stations: seq<StationItem>, letterColors: map<char, string>)
      requires Valid()
      requires FindIndex(groups, "created") == -1 ==>
                 forall i :: 0 <= i < |stations| ==> stations[i].station.createdByUser != ""
      modifies this`groups
      ensures Valid()
      ensures groups == WithFilterData(old(groups), stations, letterColors)
    {
      if FindIndex(groups, "created") == -1 {
        GetCreatedByFilter(stations, letterColors);
      }
      if FindIndex(groups, "storage") == -1 {
        GetStorageTypeFilter();
      }
    }

    /** buildFilter: for the stations component on the stations route, build
        the created and storage groups from the domain list. */
    method BuildFilter(route: string, domainList: seq<StationItem>, letterColors: map<char, string>)
      requires Valid()
      requires component == "stations" && route == "stations" && FindIndex(groups, "created") == -1 ==>
                 forall i :: 0 <= i < |domainList| ==> domainList[i].station.createdByUser != ""
      modifies this`groups
      ensures Valid()
      ensures groups == if component == "stations" && route == "stations"
                        then WithFilterData(old(groups), domainList, letterColors) else old(groups)
    {
      if component == "stations" && route == "stations" {
        GetFilterData(domainList, letterColors);
      }
    }

    /** getTagsFilter: insert or replace the tags group built from the tag list. */
    method GetTagsFilter()
      requires Valid()
      modifies this`groups
      ensures Valid()
      ensures groups == WithTagsGroup(old(groups), tagList)
    {
      ghost var before := groups;
      var tagGroup := TagsGroup(tagList);
      var k := FindIndex(groups, "tags");
      if k == -1 {
        groups := [tagGroup] + groups;
      } else {
        groups := groups[k := tagGroup];
      }
      TagsGroupUnique(before, tagList);
      TagsGroupDimensions(before, tagList);
    }

    /** flipOpen, also the popover's onOpenChange. */
    method FlipOpen()
      modifies this`isOpen
      ensures old(Valid()) ==> Valid()
      ensures isOpen == !old(isOpen)
    {
      isOpen := !isOpen;
    }

    /** handleCancel: close the panel without applying. */
    method HandleCancel()
      modifies this`isOpen
      ensures old(Valid()) ==> Valid()
      ensures !isOpen
    {
      isOpen := false;
    }

    /** The reducer's SET_COUNTER action. */
    method SetCounter(n: int)
      modifies this`counter
      ensures old(Valid()) ==> Valid()
      ensures counter == n
    {
      counter := n;
    }

    /** The reducer's SET_FILTER_FIELDS action, by which the panel's editor
        stores edited selections: the groups keep their names and kinds. */
    method SetFilterFields(gs: seq<FilterGroup>)
      requires Valid() && SameShape(groups, gs)
      modifies this`groups
      ensures Valid() && groups == gs
    {
      SameShapeValid(groups, gs);
      groups := gs;
    }

    /** handleApply: commit the selections as terms and flip the panel. */
    method HandleApply()
      requires Valid() && AllRadioSelectionsOk(groups)
      modifies this`terms, this`isOpen
      ensures Valid()
      ensures terms == AppliedTerms(groups)
      ensures isOpen == !old(isOpen)
    {
      terms := CollectTerms(groups);
      AppliedTermsFilterable(groups);
      FlipOpen();
    }

    /** handleClear: zero the counter, reset every group with the switch's
        fall-through, and drop the applied terms. */
    method HandleClear()
      requires Valid()
      modifies this`counter, this`groups, this`terms
      ensures Valid()
      ensures counter == 0 && terms == []
      ensures groups == Map(ClearGroup, old(groups))
    {
      counter := 0;
      ghost var before := groups;
      groups := ClearGroups(groups);
      ClearKeepsNames(before);
      terms := [];
    }

    /** handleFilter: publish the visible stations for the stations component. */
    method HandleFilter(domainList: seq<StationItem>)
      requires Valid()
      modifies this`filteredList
      ensures filteredList == if component == "stations"
                              then StationFilter.HandleFilter(domainList, terms, searchInput)
                              else old(filteredList)
    {
      if component == "stations" {
        filteredList := StationFilter.HandleFilter(domainList, terms, searchInput);
      }
    }
  }

  /** What the editor may change: selections, not the groups' names or kinds. */
  predicate SameShape(built: seq<FilterGroup>, edited: seq<FilterGroup>)
  {
    |built| == |edited| &&
    forall i :: 0 <= i < |built| ==> edited[i].name == built[i].name && edited[i].filterType == built[i].filterType
  }

  /** Edited groups keep the panel's invariant on the groups. */
  lemma SameShapeValid(built: seq<FilterGroup>, edited: seq<FilterGroup>)
    requires SameShape(built, edited) && UniqueNames(built) && DimensionsAreCheckbox(built)
    ensures UniqueNames(edited) && DimensionsAreCheckbox(edited)
  {
  }

  /** The panel's editor ticking the first option of a group. */
  function TickFirst(g: FilterGroup): (r: FilterGroup)
    requires |g.fields| > 0
    ensures r.name == g.name && r.filterType == g.filterType && |r.fields| == |g.fields|
    ensures r.fields[0].checked && r.fields[1..] == g.fields[1..]
  {
    g.(fields := g.fields[0 := g.fields[0].(checked := true)])
  }

  /** Building from no groups gives the "created" group and then the "storage" group. */
  lemma BuildFromEmpty(stations: seq<StationItem>, letterColors: map<char, string>)
    requires forall i :: 0 <= i < |stations| ==> stations[i].station.createdByUser != ""
    ensures WithFilterData([], stations, letterColors) == [CreatedGroup(stations, letterColors), StorageGroup()]
  {
    var c := [CreatedGroup(stations, letterColors)];
    assert FindIndex(c, "storage") == -1 by {
      assert c[0].name[0] != "storage"[0];
    }
  }

  /** The groups built from the stations, with the first creator ticked, are
      an edit of the built groups and apply as one "created" term for that
      creator. */
  lemma FirstCreatorTicked(stations: seq<StationItem>)
    requires |stations| > 0 && forall i :: 0 <= i < |stations| ==> stations[i].station.createdByUser != ""
    ensures |CreatedGroup(stations, map[]).fields| > 0
    ensures var edited := [TickFirst(CreatedGroup(stations, map[])), StorageGroup()];
            && SameShape(WithFilterData([], stations, map[]), edited) && AllRadioSelectionsOk(edited)
            && AppliedTerms(edited) == [AppliedTerm("created", [Name(stations[0].station.createdByUser)])]
  {
    var created, storage := CreatedGroup(stations, map[]), StorageGroup();
    CreatedGroupHead(stations, map[]);
    BuildFromEmpty(stations, map[]);
    var ticked := TickFirst(created);
    OneTickedFieldApplies(ticked, storage);
  }

  /** The first half of a session: build the groups from the stations, open
      the panel, store the editor's selections and apply them, which closes
      the panel again. */
  method BuildAndApply(stations: seq<StationItem>, edited: seq<FilterGroup>) returns (panel: Filter)
    requires forall i :: 0 <= i < |stations| ==> stations[i].station.createdByUser != ""
    requires SameShape(WithFilterData([], stations, map[]), edited) && AllRadioSelectionsOk(edited)
    ensures fresh(panel) && panel.Valid() && panel.component == "stations" && !panel.isOpen
    ensures panel.groups == edited && panel.terms == AppliedTerms(edited)
  {
    panel := new Filter("stations");
    panel.BuildFilter("stations", stations, map[]);
    panel.FlipOpen();
    panel.SetFilterFields(edited);
    panel.HandleApply();
  }

  /** A session that filters: with the first creator ticked and no search,
      the first station stays visible exactly when its creator's name has no
      capital letter. */
  method FilterByFirstCreator(stations: seq<StationItem>) returns (visible: seq<StationItem>)
    requires |stations| > 0 && forall i :: 0 <= i < |stations| ==> stations[i].station.createdByUser != ""
    ensures stations[0] in visible <==> stations[0].station.createdByUser == StationFilter.Lower(stations[0].station.createdByUser)
  {
    FirstCreatorTicked(stations);
    var panel := BuildAndApply(stations, [TickFirst(CreatedGroup(stations, map[])), StorageGroup()]);
    var user := stations[0].station.createdByUser;
    panel.HandleSearch("");
    panel.HandleFilter(stations);
    StationFilter.SingleCreatorTerm(stations, user, stations[0]);
    visible := panel.filteredList;
  }

  /** A session that clears after applying: the term is dropped, the counter
      is zero and the ticked creator is unticked. */
  method ClearAfterApply(stations: seq<StationItem>) returns (terms: seq<AppliedTerm>, counter: int, created: FilterGroup)
    requires |stations| > 0 && forall i :: 0 <= i < |stations| ==> stations[i].station.createdByUser != ""
    ensures terms == [] && counter == 0
    ensures created.name == "created" && |created.fields| == |CreatedGroup(stations, map[]).fields|
    ensures forall k :: 0 <= k < |created.fields| ==> !created.fields[k].checked
  {
    FirstCreatorTicked(stations);
    var edited := [TickFirst(CreatedGroup(stations, map[])), StorageGroup()];
    var panel := BuildAndApply(stations, edited);
    panel.HandleClear();
    terms, counter := panel.terms, panel.counter;
    created := panel.groups[0];
    assert created == ClearGroup(edited[0]);
  }
}

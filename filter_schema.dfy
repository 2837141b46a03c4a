/**
 The station filter's data model and the schema builders of the filter
 panel (ui_src/src/components/filter/index.js): the "created", "storage"
 and "tags" filter groups and the rules that add each group at most once.
 */
module FilterSchema {
  import opened Wrappers
  import opened Seqs

  /** The filter kinds the panel distinguishes; OtherType stands for any
      value that matches none of the switch cases. */
  datatype FilterType = Checkbox | Date | RadioButton | OtherType

  datatype LabelType = CircledLetter | Badge | NoLabel

  /** One selectable option of a group. An absent `checked` is modelled as
      false (the code only reads it for truthiness); an absent `value` or
      `color` is None. */
  datatype FilterField = FilterField(name: string, color: Option<string>, checked: bool, value: Option<string>)

  /** One filterable dimension; `value` is its display label and
      `radioValue` is None until something assigns it. */
  datatype FilterGroup = FilterGroup(
    name: string,
    value: string,
    labelType: LabelType,
    filterType: FilterType,
    fields: seq<FilterField>,
    radioValue: Option<int>)

  datatype Tag = Tag(name: string, color: string)

  datatype Station = Station(name: string, createdByUser: string, storageType: string)

  /** An entry of the domain list: a station with the tags attached to it. */
  datatype StationItem = StationItem(station: Station, tags: seq<Tag>)

  function GroupName(g: FilterGroup): string { g.name }

  /** No two groups share a name: the invariant the builders keep. */
  predicate UniqueNames(gs: seq<FilterGroup>)
  {
    forall i, j :: 0 <= i < j < |gs| ==> gs[i].name != gs[j].name
  }

  /** Array.prototype.findIndex on the group name: the first index, or -1. */
  function FindIndex(gs: seq<FilterGroup>, name: string): (k: int)
    ensures -1 <= k < |gs|
    ensures k == -1 <==> forall i :: 0 <= i < |gs| ==> gs[i].name != name
    ensures k >= 0 ==> gs[k].name == name && forall i :: 0 <= i < k ==> gs[i].name != name
  {
    if gs == [] then -1
    else if gs[0].name == name then 0
    else
      var k := FindIndex(gs[1..], name);
      if k == -1 then -1 else k + 1
  }

  /** ASCII-only String.prototype.toUpperCase on one character. */
  function UpperChar(c: char): char
  {
    if 'a' <= c <= 'z' then (c as int - 32) as char else c
  }

  /** The colour of a user's circled letter, looked up in an external table
      keyed by the upper-cased first letter; the table is a parameter. */
  function LetterColor(letterColors: map<char, string>, user: string): (r: Option<string>)
    ensures r.Some? ==> r.value in letterColors.Values
    ensures r.None? <==> user == [] || UpperChar(user[0]) !in letterColors
  {
    if user == [] then None
    else
      var letter := UpperChar(user[0]);
      if letter in letterColors then Some(letterColors[letter]) else None
  }

  /** The colour depends on the first letter only, whatever its case. */
  lemma LetterColorIgnoresCase(letterColors: map<char, string>, u: string, v: string)
    requires u != [] && v != [] && UpperChar(u[0]) == UpperChar(v[0])
    ensures LetterColor(letterColors, u) == LetterColor(letterColors, v)
  {
  }

  function Creators(stations: seq<StationItem>): seq<string>
  {
    Map((item: StationItem) => item.station.createdByUser, stations)
  }

  /** The "created" group: one unchecked option per distinct creator, in
      first-seen order. */
  function CreatedGroup(stations: seq<StationItem>, letterColors: map<char, string>): (g: FilterGroup)
    requires forall i :: 0 <= i < |stations| ==> stations[i].station.createdByUser != ""
    ensures g.name == "created" && g.filterType == Checkbox
    ensures forall f :: f in g.fields ==> !f.checked && f.value == None
    ensures Map((f: FilterField) => f.name, g.fields) == Distinct(Creators(stations))
  {
    var users := Distinct(Creators(stations));
    var fields := Map((user: string) => FilterField(user, LetterColor(letterColors, user), false, None), users);
    assert Map((f: FilterField) => f.name, fields) == users;
    FilterGroup("created", "Created By", CircledLetter, Checkbox, fields, None)
  }

  /** The "storage" group: the fixed Memory and File options. */
  function StorageGroup(): (g: FilterGroup)
    ensures g.name == "storage" && g.filterType == Checkbox
    ensures Map((f: FilterField) => f.value, g.fields) == [Some("memory"), Some("file")]
    ensures forall f :: f in g.fields ==> !f.checked
  {
    var fields := [FilterField("Memory", None, false, Some("memory")), FilterField("File", None, false, Some("file"))];
    assert Map((f: FilterField) => f.value, fields) == [Some("memory"), Some("file")];
    FilterGroup("storage", "Storage Type", NoLabel, Checkbox, fields, None)
  }

  /** The "tags" group: one unchecked option per tag, in tag-list order. */
  function TagsGroup(tags: seq<Tag>): (g: FilterGroup)
    ensures g.name == "tags" && g.filterType == Checkbox
    ensures |g.fields| == |tags|
    ensures forall i :: 0 <= i < |tags| ==>
              g.fields[i].name == tags[i].name && g.fields[i].color == Some(tags[i].color) && !g.fields[i].checked
  {
    FilterGroup("tags", "Tags", Badge, Checkbox,
      Map((t: Tag) => FilterField(t.name, Some(t.color), false, None), tags), None)
  }

  /** getFilterData: append the "created" group and then the "storage" group,
      each only when no group of that name exists yet. */
  function WithFilterData(gs: seq<FilterGroup>, stations: seq<StationItem>, letterColors: map<char, string>): (r: seq<FilterGroup>)
    requires FindIndex(gs, "created") == -1 ==>
               forall i :: 0 <= i < |stations| ==> stations[i].station.createdByUser != ""
    ensures |gs| <= |r| <= |gs| + 2 && r[..|gs|] == gs
    ensures FindIndex(gs, "created") != -1 && FindIndex(gs, "storage") != -1 ==> r == gs
  {
    var withCreated := if FindIndex(gs, "created") == -1 then gs + [CreatedGroup(stations, letterColors)] else gs;
    if FindIndex(withCreated, "storage") == -1 then withCreated + [StorageGroup()] else withCreated
  }

  /** getTagsFilter: insert the tags group at index 0 when absent, otherwise
      replace the first group named "tags" where it stands. */
  function WithTagsGroup(gs: seq<FilterGroup>, tags: seq<Tag>): (r: seq<FilterGroup>)
    ensures |gs| <= |r| <= |gs| + 1 && TagsGroup(tags) in r
  {
    var k := FindIndex(gs, "tags");
    if k == -1 then
      var r := [TagsGroup(tags)] + gs;
      assert r[0] == TagsGroup(tags);
      r
    else
      var r := gs[k := TagsGroup(tags)];
      assert r[k] == TagsGroup(tags);
      r
  }

  function NotTags(g: FilterGroup): bool { g.name != "tags" }

  predicate IsStationDimension(name: string)
  {
    name == "tags" || name == "created" || name == "storage"
  }

  /** The tags, created and storage groups are checkbox groups. */
  predicate DimensionsAreCheckbox(gs: seq<FilterGroup>)
  {
    forall i :: 0 <= i < |gs| && IsStationDimension(gs[i].name) ==> gs[i].filterType == Checkbox
  }

  /** The first option of the "created" group is the first station's creator. */
  lemma CreatedGroupHead(stations: seq<StationItem>, letterColors: map<char, string>)
    requires |stations| > 0 && forall i :: 0 <= i < |stations| ==> stations[i].station.createdByUser != ""
    ensures var g := CreatedGroup(stations, letterColors);
            |g.fields| > 0 && g.fields[0].name == stations[0].station.createdByUser
  {
    var creators := Creators(stations);
    DistinctHead(creators);
    var g := CreatedGroup(stations, letterColors);
    assert Map((f: FilterField) => f.name, g.fields)[0] == g.fields[0].name;
  }

  /** getFilterData keeps the dimension groups checkbox groups. */
  lemma FilterDataDimensions(gs: seq<FilterGroup>, stations: seq<StationItem>, letterColors: map<char, string>)
    requires FindIndex(gs, "created") == -1 ==>
               forall i :: 0 <= i < |stations| ==> stations[i].station.createdByUser != ""
    requires DimensionsAreCheckbox(gs)
    ensures DimensionsAreCheckbox(WithFilterData(gs, stations, letterColors))
  {
    var c := gs;
    if FindIndex(gs, "created") == -1 {
      c := gs + [CreatedGroup(stations, letterColors)];
      AppendCheckbox(gs, CreatedGroup(stations, letterColors));
    }
    if FindIndex(c, "storage") == -1 {
      AppendCheckbox(c, StorageGroup());
    }
  }

  lemma AppendCheckbox(gs: seq<FilterGroup>, g: FilterGroup)
    requires DimensionsAreCheckbox(gs) && g.filterType == Checkbox
    ensures DimensionsAreCheckbox(gs + [g])
  {
    var r := gs + [g];
    assert forall i :: 0 <= i < |gs| ==> r[i] == gs[i];
  }

  /** getTagsFilter keeps the dimension groups checkbox groups. */
  lemma TagsGroupDimensions(gs: seq<FilterGroup>, tags: seq<Tag>)
    requires DimensionsAreCheckbox(gs)
    ensures DimensionsAreCheckbox(WithTagsGroup(gs, tags))
  {
    TagsGroupPlacement(gs, tags);
    var r := WithTagsGroup(gs, tags);
    if FindIndex(gs, "tags") == -1 {
      assert forall i :: 1 <= i < |r| ==> r[i] == gs[i - 1];
    }
  }

  /** Appending a group whose name is absent keeps the names unique. */
  lemma AppendUnique(gs: seq<FilterGroup>, g: FilterGroup)
    requires UniqueNames(gs) && FindIndex(gs, g.name) == -1
    ensures UniqueNames(gs + [g])
  {
    var r := gs + [g];
    forall i, j | 0 <= i < j < |r| ensures r[i].name != r[j].name {
      if j == |gs| {
        assert r[i] == gs[i];
      } else {
        assert r[i] == gs[i] && r[j] == gs[j];
      }
    }
  }

  /** The existing groups are kept as a prefix; exactly the missing ones of
      "created" and "storage" are appended, in that order. */
  lemma FilterDataShape(gs: seq<FilterGroup>, stations: seq<StationItem>, letterColors: map<char, string>)
    requires FindIndex(gs, "created") == -1 ==>
               forall i :: 0 <= i < |stations| ==> stations[i].station.createdByUser != ""
    ensures WithFilterData(gs, stations, letterColors) ==
              gs + (if FindIndex(gs, "created") == -1 then [CreatedGroup(stations, letterColors)] else [])
                 + (if FindIndex(gs, "storage") == -1 then [StorageGroup()] else [])
    ensures FindIndex(WithFilterData(gs, stations, letterColors), "created") != -1
    ensures FindIndex(WithFilterData(gs, stations, letterColors), "storage") != -1
  {
    var kc, ks := FindIndex(gs, "created"), FindIndex(gs, "storage");
    var c := if kc == -1 then gs + [CreatedGroup(stations, letterColors)] else gs;
    if kc == -1 {
      FindIndexAppend(gs, CreatedGroup(stations, letterColors), "created");
      FindIndexAppend(gs, CreatedGroup(stations, letterColors), "storage");
    }
    if FindIndex(c, "storage") == -1 {
      FindIndexAppend(c, StorageGroup(), "created");
      FindIndexAppend(c, StorageGroup(), "storage");
    }
    assert gs + [] == gs;
  }

  /** Looking a name up after appending a group. */
  lemma FindIndexAppend(gs: seq<FilterGroup>, g: FilterGroup, name: string)
    ensures FindIndex(gs + [g], name) ==
              if FindIndex(gs, name) != -1 then FindIndex(gs, name) else if g.name == name then |gs| else -1
  {
    var xs := gs + [g];
    var k := FindIndex(gs, name);
    assert forall i :: 0 <= i < |gs| ==> xs[i] == gs[i];
    if k != -1 {
      assert xs[k].name == name;
    } else {
      assert xs[|gs|] == g;
    }
  }

  /** Repeated calls never add a group twice, whatever stations they see. */
  lemma FilterDataIdempotent(gs: seq<FilterGroup>, s1: seq<StationItem>, c1: map<char, string>, s2: seq<StationItem>, c2: map<char, string>)
    requires FindIndex(gs, "created") == -1 ==>
               forall i :: 0 <= i < |s1| ==> s1[i].station.createdByUser != ""
    ensures FindIndex(WithFilterData(gs, s1, c1), "created") != -1 &&
            WithFilterData(WithFilterData(gs, s1, c1), s2, c2) == WithFilterData(gs, s1, c1)
  {
    FilterDataShape(gs, s1, c1);
  }

  /** getFilterData keeps the group names unique. */
  lemma FilterDataUnique(gs: seq<FilterGroup>, stations: seq<StationItem>, letterColors: map<char, string>)
    requires FindIndex(gs, "created") == -1 ==>
               forall i :: 0 <= i < |stations| ==> stations[i].station.createdByUser != ""
    requires UniqueNames(gs)
    ensures UniqueNames(WithFilterData(gs, stations, letterColors))
  {
    var c := gs;
    if FindIndex(gs, "created") == -1 {
      c := gs + [CreatedGroup(stations, letterColors)];
      AppendUnique(gs, CreatedGroup(stations, letterColors));
    }
    if FindIndex(c, "storage") == -1 {
      AppendUnique(c, StorageGroup());
    }
  }

  /** getTagsFilter puts the tags group at index 0 when absent and at its
      old index otherwise, leaving every other position as it was. */
  lemma TagsGroupPlacement(gs: seq<FilterGroup>, tags: seq<Tag>)
    ensures FindIndex(gs, "tags") == -1 ==> WithTagsGroup(gs, tags) == [TagsGroup(tags)] + gs
    ensures FindIndex(gs, "tags") != -1 ==>
              var k := FindIndex(gs, "tags");
              |WithTagsGroup(gs, tags)| == |gs| && WithTagsGroup(gs, tags)[k] == TagsGroup(tags) &&
              forall i :: 0 <= i < |gs| && i != k ==> WithTagsGroup(gs, tags)[i] == gs[i]
    ensures FindIndex(WithTagsGroup(gs, tags), "tags") != -1
  {
    var r := WithTagsGroup(gs, tags);
    if FindIndex(gs, "tags") == -1 {
      assert r[0].name == "tags";
    }
  }

  /** Apart from the tags group, getTagsFilter keeps every group in its
      relative order. */
  lemma TagsGroupKeepsOthers(gs: seq<FilterGroup>, tags: seq<Tag>)
    ensures Filter(NotTags, WithTagsGroup(gs, tags)) == Filter(NotTags, gs)
  {
    var k := FindIndex(gs, "tags");
    var tg := TagsGroup(tags);
    if k == -1 {
      FilterSkip(NotTags, [], tg, gs);
      assert [] + [tg] + gs == [tg] + gs;
      assert [] + gs == gs;
    } else {
      ReplaceTagsKeepsOthers(gs, k, tg);
    }
  }

  /** Replacing one tags group by another leaves the other groups as they were. */
  lemma ReplaceTagsKeepsOthers(gs: seq<FilterGroup>, k: nat, g: FilterGroup)
    requires k < |gs| && gs[k].name == "tags" && g.name == "tags"
    ensures Filter(NotTags, gs[k := g]) == Filter(NotTags, gs)
  {
    var pre, post := gs[..k], gs[k + 1..];
    assert gs == pre + [gs[k]] + post;
    assert gs[k := g] == pre + [g] + post;
    FilterSkip(NotTags, pre, gs[k], post);
    FilterSkip(NotTags, pre, g, post);
  }

  /** getTagsFilter keeps the group names unique. */
  lemma TagsGroupUnique(gs: seq<FilterGroup>, tags: seq<Tag>)
    requires UniqueNames(gs)
    ensures UniqueNames(WithTagsGroup(gs, tags))
  {
    var k := FindIndex(gs, "tags");
    var r := WithTagsGroup(gs, tags);
    if k == -1 {
      forall i, j | 0 <= i < j < |r| ensures r[i].name != r[j].name {
        assert r[j] == gs[j - 1];
        if i > 0 { assert r[i] == gs[i - 1]; }
      }
    } else {
      assert forall i :: 0 <= i < |r| ==> r[i].name == gs[i].name;
    }
  }
}

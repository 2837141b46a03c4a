# Memphis station filter and function-manifest handlers, in Dafny

This project models two parts of Memphis.

The first is the filter widget of the web console
(`ui_src/src/components/filter/index.js`). It holds:
- the filter panel's groups: "tags", "created" (the stations' creators) and
  "storage" (memory / file);
- the Apply button, which turns the ticked options into applied terms;
- the Clear button, whose `switch` falls through from CHECKBOX to DATE to
  RADIOBUTTON;
- the station list filter, which keeps the stations that match the search
  box and the applied terms.

The second is two handlers of `server/memphis_handlers_functions.go`:
- `validateYamlContent` reports which required keys a decoded function
  manifest lacks;
- `GetFunctionsDetails` turns each fetched manifest into a
  `FunctionsResult` record.

Modules:
- `Wrappers`: `Option`.
- `Seqs`: the JavaScript array operations the widget relies on (`filter`,
  `map`, `[...new Set(xs)]`) and their properties.
- `FilterSchema`: the data model and the group builders (`getFilterData`,
  `getCreatedByFilter`, `getStorageTypeFilter`, `getTagsFilter`), with the
  invariant that group names stay unique.
- `FilterTerms`: Apply and Clear as pure specifications, and the loop
  methods proved against them.
- `StationFilter`: `handleFilter`'s visible list as a function, proved equal
  to one filter of the domain list by an independent `Visible` predicate.
- `FilterPanel`: the component's state as a class `Filter` whose methods
  are the handlers. The reducer state (`isOpen`, `counter`, `filterFields`)
  and the component state (`tagList`, `filterTerms`, `searchInput`) are
  fields, and so is the store's filtered list.
- `FunctionsHandler`: the two Go handlers.

The model keeps two behaviours of the widget as they are written:
- `handleFilter` lowercases the selected names but compares them with the
  stations' own, unlowercased values (`StationFilter.CapitalisedCreatorNeverMatches`).
- Clear resets a RADIOBUTTON group's index but not its field values, so such
  a group can still apply a term after Clear (`FilterTerms.ClearKeepsRadioValues`).

## Model

| member | source | states |
|---|---|---|
| FilterSchema.FindIndex | ui_src/src/components/filter/index.js:188 | the result is -1 exactly when no group has the name; otherwise it is the first index holding it |
| FilterSchema.CreatedGroup | ui_src/src/components/filter/index.js:123-141 | the "created" group is a checkbox group whose options are unchecked, carry no value, and whose names are the distinct creators in first-seen order |
| FilterSchema.StorageGroup | ui_src/src/components/filter/index.js:147-157 | the "storage" group is a checkbox group of two unchecked options with values memory and file |
| FilterSchema.TagsGroup | ui_src/src/components/filter/index.js:172-186 | the "tags" group has one unchecked option per tag, in order, with the tag's name and colour |
| FilterSchema.LetterColor | ui_src/src/components/filter/index.js:131 | a colour is found exactly when the name is non-empty and the table holds its upper-cased first letter, and it is one of the table's colours |
| FilterSchema.LetterColorIgnoresCase | ui_src/src/components/filter/index.js:131 | names whose first letters upper-case alike get the same colour |
| FilterSchema.WithFilterData | ui_src/src/components/filter/index.js:118-121 | the old groups stay as a prefix and at most two groups are added; with both groups present nothing changes |
| FilterSchema.WithTagsGroup | ui_src/src/components/filter/index.js:187-189 | the result holds the new tags group and is at most one group longer |
| FilterSchema.CreatedGroupHead | ui_src/src/components/filter/index.js:125-134 | the first option of the "created" group is the first station's creator |
| FilterSchema.FilterDataShape | ui_src/src/components/filter/index.js:118-121 | getFilterData keeps the old groups as a prefix and appends exactly the missing "created" and "storage" groups, in that order; afterwards both are present |
| FilterSchema.FilterDataIdempotent | ui_src/src/components/filter/index.js:118-121 | a second getFilterData, with any stations, changes nothing |
| FilterSchema.FilterDataUnique | ui_src/src/components/filter/index.js:118-121 | getFilterData keeps group names unique |
| FilterSchema.FilterDataDimensions | ui_src/src/components/filter/index.js:118-121 | getFilterData keeps the three station dimensions checkbox groups |
| FilterSchema.TagsGroupPlacement | ui_src/src/components/filter/index.js:187-189 | the tags group is inserted at index 0 when absent; otherwise it replaces the old one at its index and every other position is unchanged; afterwards a tags group exists |
| FilterSchema.TagsGroupKeepsOthers | ui_src/src/components/filter/index.js:187-189 | the non-tags groups keep their relative order |
| FilterSchema.TagsGroupUnique | ui_src/src/components/filter/index.js:187-189 | getTagsFilter keeps group names unique |
| FilterSchema.TagsGroupDimensions | ui_src/src/components/filter/index.js:172-190 | getTagsFilter keeps the three station dimensions checkbox groups |
| Seqs.DistinctSpec | ui_src/src/components/filter/index.js:128 | the creators listed once each: no duplicates, exactly the input's elements, in first-seen order |
| FilterTerms.TermFields | ui_src/src/components/filter/index.js:240-262 | a checkbox term holds only names, at most one per field; a selected radio group gives the name of the field at its index; any other group gives name/value pairs with non-empty values |
| FilterTerms.TermOf | ui_src/src/components/filter/index.js:236-263 | the term is named after its group and has at most one entry per field |
| FilterTerms.AppliedTerms | ui_src/src/components/filter/index.js:233-264 | at most one term per group, and no term is empty |
| FilterTerms.CheckedNames | ui_src/src/components/filter/index.js:241-247 | the loop collects the names of the checked fields, in field order |
| FilterTerms.ValuePairs | ui_src/src/components/filter/index.js:253-261 | the loop collects a name/value pair for each field whose value is defined and non-empty |
| FilterTerms.CollectTerms | ui_src/src/components/filter/index.js:234-264 | handleApply's outer loop computes exactly AppliedTerms of the groups |
| FilterTerms.AppliedTermsInGroupOrder | ui_src/src/components/filter/index.js:235-264 | term names are a subsequence of the group names |
| FilterTerms.AppliedTermsMembership | ui_src/src/components/filter/index.js:263 | a term is emitted exactly when some group yields it and it is non-empty |
| FilterTerms.AppliedTermFromGroup | ui_src/src/components/filter/index.js:263 | every emitted term is the non-empty term of some group |
| FilterTerms.GroupTermEmitted | ui_src/src/components/filter/index.js:263 | every group with a non-empty term has that term emitted |
| FilterTerms.NoTermsWhenAllEmpty | ui_src/src/components/filter/index.js:263 | groups that all yield empty terms yield no terms |
| FilterTerms.CheckboxTerm | ui_src/src/components/filter/index.js:240-247 | a checkbox term names exactly the checked fields, in field order |
| FilterTerms.OneTickedFieldApplies | ui_src/src/components/filter/index.js:233-264 | a checkbox group with only its first option ticked, next to one with nothing ticked, applies as the single term naming that option |
| FilterTerms.ClearGroup | ui_src/src/components/filter/index.js:272-281 | Clear keeps names, kinds and labels; it unchecks only CHECKBOX options; it blanks values only for CHECKBOX and DATE; it sets the radio index to -1 for every kind the switch names |
| FilterTerms.ClearField | ui_src/src/components/filter/index.js:274-277 | CHECKBOX unchecks and blanks a field, DATE only blanks it, other kinds leave it as it is; name and colour are kept |
| FilterTerms.ClearSteps | ui_src/src/components/filter/index.js:273-280 | for each kind, ClearGroup equals the case-by-case result of the fall-through |
| FilterTerms.ClearOne | ui_src/src/components/filter/index.js:273-280 | the three fall-through steps on one group compute ClearGroup |
| FilterTerms.ClearGroups | ui_src/src/components/filter/index.js:271-281 | handleClear's loop clears every group, in order |
| FilterTerms.ClearIdempotent | ui_src/src/components/filter/index.js:272-281 | clearing twice is clearing once |
| FilterTerms.ClearedGroupYieldsNothing | ui_src/src/components/filter/index.js:274-277 | a cleared CHECKBOX or DATE group has a valid radio index and yields an empty term |
| FilterTerms.ClearThenApply | ui_src/src/components/filter/index.js:269-284 | after Clear, Apply over CHECKBOX and DATE groups emits no term |
| FilterTerms.ClearKeepsRadioValues | ui_src/src/components/filter/index.js:278-279 | a RADIOBUTTON group's field value survives Clear and still yields a term |
| FilterTerms.ClearKeepsNames | ui_src/src/components/filter/index.js:272-281 | Clear keeps the group names, so they stay unique |
| FilterTerms.FindTerm | ui_src/src/components/filter/index.js:204-211 | find by name yields None exactly when no term has the name; otherwise it yields the first term of that name |
| FilterTerms.AppliedTermsFilterable | ui_src/src/components/filter/index.js:204-211 | terms applied from checkbox dimension groups hold only names, so handleFilter can lowercase them |
| StationFilter.Selected | ui_src/src/components/filter/index.js:204-212 | the selection of a dimension is exactly the lowercased names of the first term with that name, one per field, or empty without one; none holds an ASCII capital |
| StationFilter.LowerNames | ui_src/src/components/filter/index.js:205-211 | `fields.map(toLowerCase)`: one lowercased name per field, exactly the lowercased field names, none with an ASCII capital |
| StationFilter.SearchFilteredIsFilter | ui_src/src/components/filter/index.js:213-215 | the search step filters the list by SearchOk |
| StationFilter.SearchFiltered | ui_src/src/components/filter/index.js:213-215 | every kept station is in the list and matches the search; a search shorter than two code units keeps the list |
| StationFilter.Utf16Length | ui_src/src/components/filter/index.js:213 | `length` counts UTF-16 code units: at least one and at most two per character |
| StationFilter.AstralCharacterSearches | ui_src/src/components/filter/index.js:213-214 | a search of one character outside the Basic Multilingual Plane already filters by containment |
| StationFilter.SearchSpec | ui_src/src/components/filter/index.js:213-215 | with a search of fewer than two UTF-16 code units nothing is removed; otherwise a station stays exactly when its name contains the search text |
| StationFilter.EmptyDimensionPasses | ui_src/src/components/filter/index.js:219-224 | the `!includes` branch of a dimension with no selection lets every station through |
| StationFilter.TagPass | ui_src/src/components/filter/index.js:219 | a station passes exactly when no tag is selected or one of its tags is selected |
| StationFilter.CreatorPass | ui_src/src/components/filter/index.js:222 | a station passes exactly when no creator is selected or its creator is selected |
| StationFilter.StoragePass | ui_src/src/components/filter/index.js:224 | a station passes exactly when no storage type is selected or its storage type is selected |
| StationFilter.HandleFilterIsFilter | ui_src/src/components/filter/index.js:197-226 | the search plus the three chained filters equal one filter of the domain list by the reference predicate Visible |
| StationFilter.HandleFilterSpec | ui_src/src/components/filter/index.js:197-226 | the visible list is a subsequence of the domain list and holds exactly the Visible stations |
| StationFilter.HandleFilter | ui_src/src/components/filter/index.js:197-226 | every station kept is in the domain list and Visible |
| StationFilter.StorageNamesSelectValues | ui_src/src/components/filter/index.js:152-156 | the storage options' names lowercase to their values, so ticking one selects that storage type |
| StationFilter.NoSelectionOnlySearches | ui_src/src/components/filter/index.js:216 | without selections only the search applies; with no terms and a short search the list is unchanged |
| StationFilter.LowerRemovesUpper | ui_src/src/components/filter/index.js:205-211 | lowercasing leaves no ASCII capital |
| StationFilter.CapitalisedCreatorNeverMatches | ui_src/src/components/filter/index.js:207-208 | once a creator is selected, a station whose creator name has a capital is never visible |
| StationFilter.SelectedCreatorHidesOwnStation | ui_src/src/components/filter/index.js:207-222 | selecting "Alice" hides Alice's own station |
| StationFilter.SingleCreatorTerm | ui_src/src/components/filter/index.js:207-224 | with one creator term and no search, a station stays exactly when its creator equals the lowercased name |
| StationFilter.SearchIsCaseSensitive | ui_src/src/components/filter/index.js:214 | the name match is case-sensitive |
| FilterPanel.Filter.constructor | ui_src/src/components/filter/index.js:45-58 | the initial state: closed, counter 0, no groups, tags, terms or search text |
| FilterPanel.Filter.HandleSearch | ui_src/src/components/filter/index.js:89-91 | the search text becomes the input's value; the panel invariant is kept |
| FilterPanel.Filter.TagsFetched | ui_src/src/components/filter/index.js:163-170 | a response that arrives replaces the tag list; a failed request leaves it unchanged; the panel invariant is kept |
| FilterPanel.Filter.GetCreatedByFilter | ui_src/src/components/filter/index.js:123-145 | when there is no "created" group yet, it is appended and the panel invariant is kept |
| FilterPanel.Filter.GetStorageTypeFilter | ui_src/src/components/filter/index.js:147-161 | when there is no "storage" group yet, it is appended and the panel invariant is kept |
| FilterPanel.Filter.GetFilterData | ui_src/src/components/filter/index.js:118-121 | the groups become WithFilterData of the old groups, and the panel invariant is kept |
| FilterPanel.Filter.BuildFilter | ui_src/src/components/filter/index.js:93-104 | only the stations component on the stations route builds the groups; otherwise they are unchanged |
| FilterPanel.Filter.GetTagsFilter | ui_src/src/components/filter/index.js:172-191 | the groups become WithTagsGroup of the old groups and the tag list, and the panel invariant is kept |
| FilterPanel.Filter.FlipOpen | ui_src/src/components/filter/index.js:193-195 | the panel's open flag is negated; the panel invariant is kept |
| FilterPanel.Filter.HandleCancel | ui_src/src/components/filter/index.js:286-288 | the panel is closed; the panel invariant is kept |
| FilterPanel.Filter.SetCounter | ui_src/src/components/filter/index.js:270 | the counter takes the given value; the panel invariant is kept |
| FilterPanel.Filter.SetFilterFields | ui_src/src/components/filter/index.js:110-112 | the reducer's SET_FILTER_FIELDS as the editor uses it to store edited selections (names and kinds kept): the groups are replaced and the invariant kept; the dispatch at these lines of the same array is a no-op when both copies are one field |
| FilterPanel.Filter.HandleApply | ui_src/src/components/filter/index.js:233-267 | the terms become AppliedTerms of the groups, the open flag flips, and the terms remain readable by handleFilter |
| FilterPanel.Filter.HandleClear | ui_src/src/components/filter/index.js:269-284 | the counter is 0, the terms are empty, every group is cleared in place, and the invariant is kept |
| FilterPanel.Filter.HandleFilter | ui_src/src/components/filter/index.js:197-231 | for the stations component the filtered list becomes the visible stations; any other component leaves it unchanged |
| FilterPanel.FirstCreatorTicked | ui_src/src/components/filter/index.js:123-145 | the groups built from the stations, with the first creator ticked, are an edit of the built groups and apply as one "created" term naming that creator |
| FilterPanel.BuildAndApply | ui_src/src/components/filter/index.js:93-121 | build from the stations, open the panel, store an edit of the built groups and apply: the panel is closed again and its terms are AppliedTerms of the edited groups |
| FilterPanel.TickFirst | ui_src/src/components/filter/index.js:292 | the editor ticks the first option and leaves the group's name, kind and other options alone |
| FilterPanel.SameShapeValid | ui_src/src/components/filter/index.js:292 | an edit that keeps names and kinds keeps group names unique and the dimensions checkbox groups |
| FilterPanel.BuildFromEmpty | ui_src/src/components/filter/index.js:118-121 | building from no groups gives the "created" group and then the "storage" group |
| FilterPanel.FilterByFirstCreator | ui_src/src/components/filter/index.js:197-267 | after building, ticking the first creator and applying with no search, the first station is visible exactly when its creator name equals its lowercase form |
| FilterPanel.ClearAfterApply | ui_src/src/components/filter/index.js:269-284 | Clear after such an Apply leaves no terms, counter 0, and the "created" group with all its options unticked |
| FunctionsHandler.ValidateYamlContent | server/memphis_handlers_functions.go:56-69 | nil exactly when both function_name and language are keys; otherwise the message lists the missing ones |
| FunctionsHandler.MissingFields | server/memphis_handlers_functions.go:57-63 | at most the two required fields, each required and absent from the map |
| FunctionsHandler.Join | server/memphis_handlers_functions.go:66 | `%v` of a string slice: it starts with the first word, ends with the last, and a space follows the first when there are two or more; a single word is printed alone |
| FunctionsHandler.MissingMessage | server/memphis_handlers_functions.go:65-66 | the text starts with the fixed head, the first missing field follows the bracket, and it ends with the tail; one missing field gives exactly head, field, tail |
| FunctionsHandler.TwoMissing | server/memphis_handlers_functions.go:65-66 | two missing fields are reported joined by one space |
| FunctionsHandler.MissingFieldsSpec | server/memphis_handlers_functions.go:57-63 | the missing list keeps the required order and holds exactly the absent required keys; it is empty exactly when both are present |
| FunctionsHandler.PresenceOnly | server/memphis_handlers_functions.go:60 | only key presence matters: maps with the same keys miss the same fields |
| FunctionsHandler.EmptyManifestMessage | server/memphis_handlers_functions.go:65-66 | an empty manifest misses both keys and the message names them in order, separated by a space |
| FunctionsHandler.TagStrings | server/memphis_handlers_functions.go:83-91 | one tag per list element; each is one of that mapping's string values, or "" when it has none |
| FunctionsHandler.GetFunctionsDetails | server/memphis_handlers_functions.go:71-114 | the error is nil and there is one result per manifest, in order; each holds the manifest's strings, its tags and description, and the commit, link, repository, branch and owner |
| FunctionsHandler.Describes | server/memphis_handlers_functions.go:80-109 | a described record has no tags unless tags is a list and then one per element, "" for a tag mapping without a string, and "" for a description that is not a string |
| FunctionsHandler.WellTypedIsValid | server/memphis_handlers_functions.go:56-69 | a manifest the extractor reads without a panic passes the validator |
| FunctionsHandler.TagStringDetermined | server/memphis_handlers_functions.go:84-91 | a tag mapping with at most one string value gives a determined tag |

## Left out

- Socket wiring, the one-second registration timer, deregistration and the
  date sort of incoming station data (index.js:66-87): these are I/O and
  timing, outside the filter logic.
- The HTTP request of `getTags` (index.js:163-170): its outcome is the
  parameter of `FilterPanel.Filter.TagsFetched`. `BuildFilter` therefore does
  not start the request.
- When effects run (index.js:62-64, 106-116): `useEffect` scheduling is not
  modelled. Each handler is a method that a caller invokes, as the
  `FilterPanel.BuildAndApply`, `FilterByFirstCreator` and `ClearAfterApply`
  sessions do.
- The rendering (index.js:292-331), the `CustomCollapse` editor, the reducer
  and the store: their code is not part of this model.
  - `SetFilterFields` stands for the editor storing edited selections. Its
    requires (`SameShape`) says the editor changes selections but not the
    groups' names or kinds, which is assumed of the editor.
  - `SetCounter` stands for the reducer action.
- Local and reducer copies of `filterFields`: the model assumes that the
  reducer's SET_FILTER_FIELDS stores the payload by reference, so that the
  local array and the reducer's copy alias one array and are one field. The
  reducer's code is not part of this model.
- `handleOpenChange` (index.js:289-291): it is `flipOpen`, modelled by
  `FilterPanel.Filter.FlipOpen`.
- `CircleLetterColor` (index.js:131): an external table. The model takes it
  as a parameter map.
- Empty creator names: `user[0].toUpperCase()` throws on an empty name, so a
  non-empty name is a requires of the builders.
- Other throwing paths also become requires: toLowerCase on an object term,
  and a radio group whose index is unset or out of range.
- Lengths: `searchInput.length` counts UTF-16 code units and is modelled by
  `Utf16Length`. Containment is compared on Unicode characters, which agrees
  with code units for well-formed strings; lone surrogates are not modelled.
- Case mapping is ASCII only. `toLowerCase` and `toUpperCase` on non-ASCII
  letters are not modelled.
- An undefined `checked` is modelled as false. The code only tests it for
  truthiness.
- Field values are strings or absent. Non-string values are not modelled.
- The initial filtered list before the first `handleFilter` (the store's
  initial state) is taken to be empty.
- `GetAllFunctions` and `GetFunctions` (memphis_handlers_functions.go:24-54):
  they call the repository integration, which is not part of this model.
- The commit date and the file's HTML URL are plain string fields. The
  dereferences at lines 104-105, and their nil panics, are not
  modelled.
- The Go type assertions that panic become the `WellTyped` requires of
  `GetFunctionsDetails`: a non-string function_name or language, or a tag
  element that is not a map.
- YAML mapping keys: the inner tag maps (`map[interface{}]interface{}`) are
  taken to have string keys. Numbers, booleans and null all become `Other`.
- The message format: `fmt.Errorf`'s `%v` is modelled only for a slice of
  strings, as space-separated words in brackets.
- server/sysmem/sysctl.go is not part of this model; it does not touch the
  core.
- FunctionsHandler.TagStrings: each tag is stated only up to Go's
  unspecified map iteration order. It is one of the mapping's string values,
  not a particular one, because the source leaves the last one met in an
  unspecified order.
- FunctionsHandler.GetFunctionsDetails: the tags are stated up to the same
  map order, for the same reason as TagStrings.

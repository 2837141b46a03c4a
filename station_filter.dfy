/**
 handleFilter (ui_src/src/components/filter/index.js): the stations that
 stay visible for the applied terms and the search string.
 */
module StationFilter {
  import opened Wrappers
  import opened Seqs
  import opened FilterSchema
  import opened FilterTerms

  /** ASCII-only String.prototype.toLowerCase on one character. */
  function LowerChar(c: char): char
  {
    if 'A' <= c <= 'Z' then (c as int + 32) as char else c
  }

  function Lower(s: string): string
  {
    Map(LowerChar, s)
  }

  predicate HasUpper(s: string)
  {
    exists i :: 0 <= i < |s| && 'A' <= s[i] <= 'Z'
  }

  predicate OccursAt(s: string, sub: string, i: int)
  {
    0 <= i && i + |sub| <= |s| && s[i..i + |sub|] == sub
  }

  /** String.prototype.includes: sub occurs in s at some position. */
  predicate Contains(s: string, sub: string)
  {
    exists i :: 0 <= i <= |s| - |sub| && OccursAt(s, sub, i)
  }

  /** The lowercased names of a term's fields, one per field. */
  function LowerNames(fields: seq<TermField>): (r: seq<string>)
    ensures |r| == |fields|
    ensures forall s :: s in r ==> !HasUpper(s)
    ensures forall s :: s in r <==> exists f :: f in fields && s == Lower(f.name)
  {
    if fields == [] then []
    else
      var init, last := fields[..|fields| - 1], fields[|fields| - 1];
      assert fields == init + [last];
      LowerRemovesUpper(last.name);
      LowerNames(init) + [Lower(last.name)]
  }

  /** The lowercased names of the first term called `name`, or [] without one. */
  function Selected(terms: seq<AppliedTerm>, name: string): (r: seq<string>)
    requires NamesOnly(terms, name)
    ensures forall s :: s in r ==> !HasUpper(s)
    ensures forall s :: s in r <==>
              FindTerm(terms, name).Some? && exists f :: f in FindTerm(terms, name).value.fields && s == Lower(f.name)
    ensures |r| == if FindTerm(terms, name).Some? then |FindTerm(terms, name).value.fields| else 0
  {
    match FindTerm(terms, name)
    case None => []
    case Some(t) => LowerNames(t.fields)
  }

  /** The selections of the three station dimensions, as handleFilter reads them. */
  datatype Selection = Selection(tags: seq<string>, created: seq<string>, storage: seq<string>)

  function SelectionOf(terms: seq<AppliedTerm>): Selection
    requires TermsFilterable(terms)
  {
    Selection(Selected(terms, "tags"), Selected(terms, "created"), Selected(terms, "storage"))
  }

  predicate Active(sel: Selection)
  {
    |sel.tags| > 0 || |sel.created| > 0 || |sel.storage| > 0
  }

  predicate TagMatch(sel: seq<string>, item: StationItem)
  {
    exists tag :: tag in item.tags && tag.name in sel
  }

  /** The three per-dimension predicates exactly as written, `!includes`
      branch included; each holds of every station when its selection is
      empty, and otherwise demands a selected value. */
  predicate TagPass(sel: seq<string>, item: StationItem): (b: bool)
    ensures b <==> (|sel| > 0 ==> TagMatch(sel, item))
  {
    if |sel| > 0 then TagMatch(sel, item) else !TagMatch(sel, item)
  }

  predicate CreatorPass(sel: seq<string>, item: StationItem): (b: bool)
    ensures b <==> (|sel| > 0 ==> item.station.createdByUser in sel)
  {
    if |sel| > 0 then item.station.createdByUser in sel else item.station.createdByUser !in sel
  }

  predicate StoragePass(sel: seq<string>, item: StationItem): (b: bool)
    ensures b <==> (|sel| > 0 ==> item.station.storageType in sel)
  {
    if |sel| > 0 then item.station.storageType in sel else item.station.storageType !in sel
  }

  /** String.prototype.length: UTF-16 code units, two for a character outside
      the Basic Multilingual Plane. */
  function Utf16Length(s: string): (n: nat)
    ensures |s| <= n <= 2 * |s|
  {
    if s == [] then 0
    else Utf16Length(s[..|s| - 1]) + (if s[|s| - 1] as int >= 0x1_0000 then 2 else 1)
  }

  /** The search step: a search of at least two code units keeps the stations
      whose name contains it; a shorter one keeps the list as it is. */
  function SearchFiltered(domain: seq<StationItem>, search: string): (r: seq<StationItem>)
    ensures forall x :: x in r ==> x in domain && SearchOk(search, x)
    ensures Utf16Length(search) < 2 ==> r == domain
  {
    if Utf16Length(search) >= 2 then Filter((item: StationItem) => Contains(item.station.name, search), domain) else domain
  }

  /** handleFilter for the "stations" component: every station it keeps is
      in the domain list and Visible (HandleFilterSpec gives the converse). */
  function HandleFilter(domain: seq<StationItem>, terms: seq<AppliedTerm>, search: string): (r: seq<StationItem>)
    requires TermsFilterable(terms)
    ensures forall x :: x in r ==> x in domain && Visible(search, SelectionOf(terms), x)
  {
    var sel := SelectionOf(terms);
    var data := SearchFiltered(domain, search);
    if Active(sel) then
      Filter((item: StationItem) => StoragePass(sel.storage, item),
        Filter((item: StationItem) => CreatorPass(sel.created, item),
          Filter((item: StationItem) => TagPass(sel.tags, item), data)))
    else data
  }

  predicate SearchOk(search: string, item: StationItem)
  {
    Utf16Length(search) >= 2 ==> Contains(item.station.name, search)
  }

  /** Reference definition: a station is visible when its name contains a
      search of at least two code units, and, for each dimension with a
      selection, it has a selected tag, creator or storage type. */
  predicate Visible(search: string, sel: Selection, item: StationItem)
  {
    && SearchOk(search, item)
    && (|sel.tags| > 0 ==> exists tag :: tag in item.tags && tag.name in sel.tags)
    && (|sel.created| > 0 ==> item.station.createdByUser in sel.created)
    && (|sel.storage| > 0 ==> item.station.storageType in sel.storage)
  }

  /** A dimension without a selection lets every station through, so the
      `!includes` branch filters nothing. */
  lemma EmptyDimensionPasses(item: StationItem)
    ensures TagPass([], item) && CreatorPass([], item) && StoragePass([], item)
  {
  }

  lemma SearchFilteredIsFilter(domain: seq<StationItem>, search: string)
    ensures SearchFiltered(domain, search) == Filter((item: StationItem) => SearchOk(search, item), domain)
  {
    var ok := (item: StationItem) => SearchOk(search, item);
    if Utf16Length(search) >= 2 {
      FilterEquiv((item: StationItem) => Contains(item.station.name, search), ok, domain);
    } else {
      FilterAll(ok, domain);
    }
  }

  predicate UpToTags(search: string, sel: Selection, item: StationItem)
  {
    SearchOk(search, item) && TagPass(sel.tags, item)
  }

  predicate UpToCreators(search: string, sel: Selection, item: StationItem)
  {
    UpToTags(search, sel, item) && CreatorPass(sel.created, item)
  }

  /** handleFilter is one filter of the domain list by Visible. */
  lemma HandleFilterIsFilter(domain: seq<StationItem>, terms: seq<AppliedTerm>, search: string)
    requires TermsFilterable(terms)
    ensures HandleFilter(domain, terms, search) ==
              Filter((item: StationItem) => Visible(search, SelectionOf(terms), item), domain)
  {
    var sel := SelectionOf(terms);
    var ok := (item: StationItem) => SearchOk(search, item);
    var v := (item: StationItem) => Visible(search, sel, item);
    SearchFilteredIsFilter(domain, search);
    if Active(sel) {
      var t := (item: StationItem) => TagPass(sel.tags, item);
      var c := (item: StationItem) => CreatorPass(sel.created, item);
      var g := (item: StationItem) => StoragePass(sel.storage, item);
      var ut := (item: StationItem) => UpToTags(search, sel, item);
      var uc := (item: StationItem) => UpToCreators(search, sel, item);
      FilterFilterEquiv(ok, t, ut, domain);
      FilterFilterEquiv(ut, c, uc, domain);
      FilterFilterEquiv(uc, g, v, domain);
    } else {
      FilterEquiv(ok, v, domain);
    }
  }

  /** The visible list is a subsequence of the domain list and holds exactly
      the Visible stations. */
  lemma HandleFilterSpec(domain: seq<StationItem>, terms: seq<AppliedTerm>, search: string, x: StationItem)
    requires TermsFilterable(terms)
    ensures IsSubseq(HandleFilter(domain, terms, search), domain)
    ensures x in HandleFilter(domain, terms, search) <==> x in domain && Visible(search, SelectionOf(terms), x)
  {
    var v := (item: StationItem) => Visible(search, SelectionOf(terms), item);
    HandleFilterIsFilter(domain, terms, search);
    FilterIsSubseq(v, domain);
    if x in domain && Visible(search, SelectionOf(terms), x) {
      FilterKeeps(v, domain, x);
    }
  }

  /** Without tag, creator or storage selections only the search applies;
      with no terms and a search shorter than two code units nothing is
      filtered out. */
  lemma NoSelectionOnlySearches(domain: seq<StationItem>, terms: seq<AppliedTerm>, search: string)
    requires TermsFilterable(terms)
    ensures !Active(SelectionOf(terms)) ==> HandleFilter(domain, terms, search) == SearchFiltered(domain, search)
    ensures !Active(SelectionOf(terms)) && Utf16Length(search) < 2 ==> HandleFilter(domain, terms, search) == domain
    ensures terms == [] && Utf16Length(search) < 2 ==> HandleFilter(domain, terms, search) == domain
  {
  }

  /** A search of two or more code units keeps exactly the stations whose
      name contains it, case-sensitively; a shorter one keeps everything. */
  lemma SearchSpec(domain: seq<StationItem>, search: string, x: StationItem)
    ensures Utf16Length(search) < 2 ==> SearchFiltered(domain, search) == domain
    ensures Utf16Length(search) >= 2 ==>
              (x in SearchFiltered(domain, search) <==> x in domain && Contains(x.station.name, search))
  {
    if Utf16Length(search) >= 2 && x in domain && Contains(x.station.name, search) {
      FilterKeeps((item: StationItem) => Contains(item.station.name, search), domain, x);
    }
  }

  /** One character outside the Basic Multilingual Plane is two code units,
      so a search of that one character already filters. */
  lemma AstralCharacterSearches(domain: seq<StationItem>, c: char, x: StationItem)
    requires c as int >= 0x1_0000
    ensures x in SearchFiltered(domain, [c]) <==> x in domain && Contains(x.station.name, [c])
  {
    assert [c][..0] == [];
    SearchSpec(domain, [c], x);
  }

  lemma LowerRemovesUpper(s: string)
    ensures !HasUpper(Lower(s))
  {
    var l := Lower(s);
    forall i | 0 <= i < |l| ensures !('A' <= l[i] <= 'Z') {
      assert l[i] == LowerChar(s[i]);
    }
  }

  /** The storage options' names lowercase to their values, so ticking
      "Memory" or "File" selects the storage type "memory" or "file". */
  lemma StorageNamesSelectValues()
    ensures forall f :: f in StorageGroup().fields ==> f.value == Some(Lower(f.name))
  {
    var fields := StorageGroup().fields;
    assert Lower("Memory") == "memory" by {
      forall i | 0 <= i < 6 ensures Lower("Memory")[i] == "memory"[i] {
        assert Lower("Memory")[i] == LowerChar("Memory"[i]);
      }
    }
    assert Lower("File") == "file" by {
      forall i | 0 <= i < 4 ensures Lower("File")[i] == "file"[i] {
        assert Lower("File")[i] == LowerChar("File"[i]);
      }
    }
    assert fields == [FilterField("Memory", None, false, Some("memory")), FilterField("File", None, false, Some("file"))];
  }

  /** Selected names are lowercased but station values are not: once a
      creator is selected, a station whose creator name has an ASCII capital
      is never visible, even when that very creator was selected. */
  lemma CapitalisedCreatorNeverMatches(search: string, terms: seq<AppliedTerm>, item: StationItem)
    requires TermsFilterable(terms)
    requires |SelectionOf(terms).created| > 0 && HasUpper(item.station.createdByUser)
    ensures !Visible(search, SelectionOf(terms), item)
  {
  }

  /** A term "created" = ["Alice"] hides Alice's own station. */
  lemma SelectedCreatorHidesOwnStation()
    ensures var item := StationItem(Station("orders", "Alice", "file"), []);
            var terms := [AppliedTerm("created", [Name("Alice")])];
            TermsFilterable(terms) && HandleFilter([item], terms, "") == []
  {
    var item := StationItem(Station("orders", "Alice", "file"), []);
    var terms := [AppliedTerm("created", [Name("Alice")])];
    assert HasUpper("Alice") by {
      assert 'A' <= "Alice"[0] <= 'Z';
    }
    HandleFilterSpec([item], terms, "", item);
  }

  /** A single creator term, with no search, keeps exactly the stations whose
      creator equals the lowercased name. */
  lemma SingleCreatorTerm(domain: seq<StationItem>, user: string, x: StationItem)
    ensures var terms := [AppliedTerm("created", [Name(user)])];
            && TermsFilterable(terms)
            && (x in HandleFilter(domain, terms, "") <==> x in domain && x.station.createdByUser == Lower(user))
  {
    var terms := [AppliedTerm("created", [Name(user)])];
    assert Selected(terms, "created") == [Lower(user)];
    HandleFilterSpec(domain, terms, "", x);
  }

  /** The match on the station name is case-sensitive. */
  lemma SearchIsCaseSensitive()
    ensures Contains("Orders", "Or") && !Contains("Orders", "or")
  {
    assert OccursAt("Orders", "Or", 0);
    forall i | 0 <= i <= 4 ensures !OccursAt("Orders", "or", i) {
      assert "Orders"[i..i + 2][0] == "Orders"[i];
    }
  }
}

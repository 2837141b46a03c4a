/**
 The panel's Apply and Clear buttons (ui_src/src/components/filter/index.js):
 Apply turns the edited groups into applied terms, Clear resets the groups
 with the switch's fall-through cascade.
 */
module FilterTerms {
  import opened Wrappers
  import opened Seqs
  import opened FilterSchema

  /** One committed selection: a checked name or radio choice (Name), or the
      `{[field.name]: field.value}` object of any other group (Pair). */
  datatype TermField = Name(name: string) | Pair(name: string, value: string)

  datatype AppliedTerm = AppliedTerm(name: string, fields: seq<TermField>)

  function TermName(t: AppliedTerm): string { t.name }

  function IsChecked(f: FilterField): bool { f.checked }

  function HasValue(f: FilterField): bool { f.value.Some? && f.value.value != "" }

  function FieldName(f: FilterField): TermField { Name(f.name) }

  function FieldPair(f: FilterField): TermField
  {
    Pair(f.name, if f.value.Some? then f.value.value else "")
  }

  /** A radio group is read at `fields[radioValue]` unless radioValue is -1;
      an unset or out-of-range index makes handleApply throw. */
  predicate RadioSelectionOk(g: FilterGroup)
  {
    g.filterType == RadioButton ==>
      g.radioValue.Some? && (g.radioValue.value == -1 || 0 <= g.radioValue.value < |g.fields|)
  }

  predicate AllRadioSelectionsOk(gs: seq<FilterGroup>)
  {
    forall i :: 0 <= i < |gs| ==> RadioSelectionOk(gs[i])
  }

  predicate RadioSelected(g: FilterGroup)
  {
    g.filterType == RadioButton && g.radioValue != Some(-1)
  }

  /** The fields of the term handleApply builds for one group. */
  function TermFields(g: FilterGroup): (r: seq<TermField>)
    requires RadioSelectionOk(g)
    ensures g.filterType == Checkbox ==> |r| <= |g.fields| && forall x :: x in r ==> x.Name?
    ensures RadioSelected(g) ==> r == [Name(g.fields[g.radioValue.value].name)]
    ensures g.filterType != Checkbox && !RadioSelected(g) ==>
              |r| <= |g.fields| && forall x :: x in r ==> x.Pair? && x.value != ""
  {
    if g.filterType == Checkbox then Map(FieldName, Filter(IsChecked, g.fields))
    else if RadioSelected(g) then [Name(g.fields[g.radioValue.value].name)]
    else
      var kept := Filter(HasValue, g.fields);
      assert forall k :: 0 <= k < |kept| ==> kept[k] in kept;
      Map(FieldPair, kept)
  }

  /** The term handleApply builds for one group: named after it, with at most
      one entry per field. */
  function TermOf(g: FilterGroup): (t: AppliedTerm)
    requires RadioSelectionOk(g)
    ensures t.name == g.name && |t.fields| <= |g.fields|
  {
    AppliedTerm(g.name, TermFields(g))
  }

  /** handleApply's terms: one per group whose term is non-empty, in group order. */
  function AppliedTerms(gs: seq<FilterGroup>): (r: seq<AppliedTerm>)
    requires AllRadioSelectionsOk(gs)
    ensures |r| <= |gs|
    ensures forall t :: t in r ==> |t.fields| > 0
  {
    if gs == [] then []
    else
      var init := AppliedTerms(gs[..|gs| - 1]);
      var t := TermOf(gs[|gs| - 1]);
      if |t.fields| > 0 then init + [t] else init
  }

  /** handleApply's inner forEach over a checkbox group: the checked names. */
  method CheckedNames(fields: seq<FilterField>) returns (names: seq<TermField>)
    ensures names == Map(FieldName, Filter(IsChecked, fields))
  {
    names := [];
    for j := 0 to |fields|
      invariant names == Map(FieldName, Filter(IsChecked, fields[..j]))
    {
      assert fields[..j + 1][..j] == fields[..j];
      if fields[j].checked {
        names := names + [Name(fields[j].name)];
      }
    }
    assert fields[..|fields|] == fields;
  }

  /** handleApply's inner forEach over any other group: the non-empty values. */
  method ValuePairs(fields: seq<FilterField>) returns (pairs: seq<TermField>)
    ensures pairs == Map(FieldPair, Filter(HasValue, fields))
  {
    pairs := [];
    for j := 0 to |fields|
      invariant pairs == Map(FieldPair, Filter(HasValue, fields[..j]))
    {
      assert fields[..j + 1][..j] == fields[..j];
      var v := fields[j].value;
      if v.Some? && v.value != "" {
        pairs := pairs + [Pair(fields[j].name, v.value)];
      }
    }
    assert fields[..|fields|] == fields;
  }

  /** handleApply's outer forEach: one term per group, kept when non-empty. */
  method CollectTerms(gs: seq<FilterGroup>) returns (terms: seq<AppliedTerm>)
    requires AllRadioSelectionsOk(gs)
    ensures terms == AppliedTerms(gs)
  {
    terms := [];
    for i := 0 to |gs|
      invariant terms == AppliedTerms(gs[..i])
    {
      var g := gs[i];
      assert RadioSelectionOk(g);
      var fields: seq<TermField>;
      if g.filterType == Checkbox {
        fields := CheckedNames(g.fields);
      } else if g.filterType == RadioButton && g.radioValue != Some(-1) {
        fields := [Name(g.fields[g.radioValue.value].name)];
      } else {
        fields := ValuePairs(g.fields);
      }
      assert fields == TermFields(g);
      assert gs[..i + 1][..i] == gs[..i];
      if |fields| > 0 {
        terms := terms + [AppliedTerm(g.name, fields)];
      }
    }
    assert gs[..|gs|] == gs;
  }

  /** Terms come out in group order: their names are a subsequence of the
      group names. */
  lemma {:induction false} AppliedTermsInGroupOrder(gs: seq<FilterGroup>)
    requires AllRadioSelectionsOk(gs)
    ensures IsSubseq(Map(TermName, AppliedTerms(gs)), Map(GroupName, gs))
  {
    if gs != [] {
      var init := gs[..|gs| - 1];
      var g := gs[|gs| - 1];
      assert AllRadioSelectionsOk(init);
      AppliedTermsInGroupOrder(init);
      var names := Map(GroupName, gs);
      assert names == Map(GroupName, init) + [g.name];
      assert names[..|names| - 1] == Map(GroupName, init);
      var t := TermOf(g);
      if |t.fields| > 0 {
        var tn := Map(TermName, AppliedTerms(gs));
        assert tn == Map(TermName, AppliedTerms(init)) + [g.name];
        assert tn[..|tn| - 1] == Map(TermName, AppliedTerms(init));
      } else {
        SubseqExtend(Map(TermName, AppliedTerms(init)), Map(GroupName, init), g.name);
      }
    }
  }

  /** Every emitted term is the non-empty term of some group. */
  lemma {:induction false} AppliedTermFromGroup(gs: seq<FilterGroup>, t: AppliedTerm)
    requires AllRadioSelectionsOk(gs)
    requires t in AppliedTerms(gs)
    ensures exists i :: 0 <= i < |gs| && TermOf(gs[i]) == t && |t.fields| > 0
  {
    var init := gs[..|gs| - 1];
    assert AllRadioSelectionsOk(init);
    if t in AppliedTerms(init) {
      AppliedTermFromGroup(init, t);
      var i :| 0 <= i < |init| && TermOf(init[i]) == t && |t.fields| > 0;
      assert gs[i] == init[i];
    } else {
      assert TermOf(gs[|gs| - 1]) == t;
    }
  }

  /** Every group whose term is non-empty has that term emitted. */
  lemma {:induction false} GroupTermEmitted(gs: seq<FilterGroup>, i: nat)
    requires AllRadioSelectionsOk(gs)
    requires i < |gs| && |TermOf(gs[i]).fields| > 0
    ensures TermOf(gs[i]) in AppliedTerms(gs)
  {
    var init := gs[..|gs| - 1];
    assert AllRadioSelectionsOk(init);
    if i < |init| {
      assert init[i] == gs[i];
      GroupTermEmitted(init, i);
    }
  }

  /** A term is emitted exactly for the groups whose term is non-empty. */
  lemma AppliedTermsMembership(gs: seq<FilterGroup>, t: AppliedTerm)
    requires AllRadioSelectionsOk(gs)
    ensures t in AppliedTerms(gs) <==>
              exists i :: 0 <= i < |gs| && TermOf(gs[i]) == t && |t.fields| > 0
  {
    if t in AppliedTerms(gs) {
      AppliedTermFromGroup(gs, t);
    }
    if exists i :: 0 <= i < |gs| && TermOf(gs[i]) == t && |t.fields| > 0 {
      var i :| 0 <= i < |gs| && TermOf(gs[i]) == t && |t.fields| > 0;
      GroupTermEmitted(gs, i);
    }
  }

  /** Groups that all yield empty terms yield no terms. */
  lemma {:induction false} NoTermsWhenAllEmpty(gs: seq<FilterGroup>)
    requires AllRadioSelectionsOk(gs)
    requires forall i :: 0 <= i < |gs| ==> |TermOf(gs[i]).fields| == 0
    ensures AppliedTerms(gs) == []
  {
    if gs != [] {
      var init := gs[..|gs| - 1];
      assert AllRadioSelectionsOk(init);
      assert forall i :: 0 <= i < |init| ==> init[i] == gs[i];
      NoTermsWhenAllEmpty(init);
    }
  }

  lemma {:induction false} MapSubseq<T, U>(f: T -> U, a: seq<T>, b: seq<T>)
    requires IsSubseq(a, b)
    ensures IsSubseq(Map(f, a), Map(f, b))
    decreases |b|
  {
    if a != [] {
      var ma, mb := Map(f, a), Map(f, b);
      assert ma[..|ma| - 1] == Map(f, a[..|a| - 1]);
      assert mb[..|mb| - 1] == Map(f, b[..|b| - 1]);
      if a[|a| - 1] == b[|b| - 1] {
        MapSubseq(f, a[..|a| - 1], b[..|b| - 1]);
      } else {
        MapSubseq(f, a, b[..|b| - 1]);
        SubseqExtend(ma, mb[..|mb| - 1], mb[|mb| - 1]);
        assert mb[..|mb| - 1] + [mb[|mb| - 1]] == mb;
      }
    }
  }

  /** A checkbox term lists the names of the checked fields, in field order. */
  lemma CheckboxTerm(g: FilterGroup)
    requires g.filterType == Checkbox
    ensures forall x :: x in TermFields(g) ==> exists f :: f in g.fields && f.checked && x == Name(f.name)
    ensures forall f :: f in g.fields && f.checked ==> Name(f.name) in TermFields(g)
    ensures IsSubseq(TermFields(g), Map(FieldName, g.fields))
  {
    var kept := Filter(IsChecked, g.fields);
    forall x | x in TermFields(g) ensures exists f :: f in g.fields && f.checked && x == Name(f.name) {
      var k :| 0 <= k < |kept| && TermFields(g)[k] == x;
      assert kept[k] in kept;
    }
    forall f | f in g.fields && f.checked ensures Name(f.name) in TermFields(g) {
      FilterKeeps(IsChecked, g.fields, f);
      var k :| 0 <= k < |kept| && kept[k] == f;
      assert TermFields(g)[k] == Name(f.name);
    }
    FilterIsSubseq(IsChecked, g.fields);
    MapSubseq(FieldName, kept, g.fields);
  }

  /** A checkbox group with only its first field ticked, followed by a
      checkbox group with nothing ticked, applies as the single term naming
      that field. */
  lemma OneTickedFieldApplies(g: FilterGroup, h: FilterGroup)
    requires g.filterType == Checkbox && |g.fields| > 0 && g.fields[0].checked
    requires forall f :: f in g.fields[1..] ==> !f.checked
    requires h.filterType == Checkbox && forall f :: f in h.fields ==> !f.checked
    ensures AllRadioSelectionsOk([g, h])
    ensures AppliedTerms([g, h]) == [AppliedTerm(g.name, [Name(g.fields[0].name)])]
  {
    var first, rest := g.fields[..1], g.fields[1..];
    assert g.fields == first + rest;
    FilterAppend(IsChecked, first, rest);
    assert first[..0] == [];
    FilterNone(IsChecked, rest);
    assert TermFields(g) == [Name(g.fields[0].name)];
    FilterNone(IsChecked, h.fields);
    assert TermFields(h) == [];
    assert [g, h][..1] == [g];
    assert AppliedTerms([g]) == [TermOf(g)];
  }

  // ---------------------------------------------------------------- Clear

  /** What Clear does to one field of a group of the given kind: CHECKBOX
      falls through to DATE, which falls through to RADIOBUTTON. */
  function ClearField(t: FilterType, f: FilterField): (r: FilterField)
    ensures r.name == f.name && r.color == f.color
    ensures t == Checkbox ==> !r.checked
    ensures t == Checkbox || t == Date ==> r.value == Some("")
    ensures t == RadioButton || t == OtherType ==> r == f
    ensures t == Date ==> r.checked == f.checked
  {
    f.(checked := if t == Checkbox then false else f.checked,
       value := if t == Checkbox || t == Date then Some("") else f.value)
  }

  /** One group after Clear. */
  function ClearGroup(g: FilterGroup): (r: FilterGroup)
    ensures r.name == g.name && r.value == g.value && r.labelType == g.labelType && r.filterType == g.filterType
    ensures |r.fields| == |g.fields|
    ensures forall i :: 0 <= i < |g.fields| ==>
              r.fields[i].name == g.fields[i].name && r.fields[i].color == g.fields[i].color
    ensures forall i :: 0 <= i < |g.fields| ==>
              r.fields[i].checked == (g.filterType != Checkbox && g.fields[i].checked)
    ensures forall i :: 0 <= i < |g.fields| ==>
              r.fields[i].value == (if g.filterType == Checkbox || g.filterType == Date then Some("") else g.fields[i].value)
    ensures r.radioValue == (if g.filterType == OtherType then g.radioValue else Some(-1))
  {
    g.(fields := Map((f: FilterField) => ClearField(g.filterType, f), g.fields),
       radioValue := if g.filterType == OtherType then g.radioValue else Some(-1))
  }

  function Unchecked(f: FilterField): FilterField { f.(checked := false) }

  function Blanked(f: FilterField): FilterField { f.(value := Some("")) }

  /** ClearGroup as the switch's fall-through computes it, case by case. */
  lemma ClearSteps(g: FilterGroup)
    ensures g.filterType == Checkbox ==>
              ClearGroup(g) == g.(fields := Map(Blanked, Map(Unchecked, g.fields)), radioValue := Some(-1))
    ensures g.filterType == Date ==> ClearGroup(g) == g.(fields := Map(Blanked, g.fields), radioValue := Some(-1))
    ensures g.filterType == RadioButton ==> ClearGroup(g) == g.(radioValue := Some(-1))
    ensures g.filterType == OtherType ==> ClearGroup(g) == g
  {
    var r := ClearGroup(g);
    match g.filterType
    case Checkbox =>
      var f := Map(Blanked, Map(Unchecked, g.fields));
      assert forall i :: 0 <= i < |g.fields| ==> r.fields[i] == f[i];
    case Date =>
      var f := Map(Blanked, g.fields);
      assert forall i :: 0 <= i < |g.fields| ==> r.fields[i] == f[i];
    case RadioButton =>
      assert forall i :: 0 <= i < |g.fields| ==> r.fields[i] == g.fields[i];
    case OtherType =>
      assert forall i :: 0 <= i < |g.fields| ==> r.fields[i] == g.fields[i];
  }

  /** handleClear's switch on one group, with its fall-through. */
  method ClearOne(g: FilterGroup) returns (r: FilterGroup)
    ensures r == ClearGroup(g)
  {
    r := g;
    var t := g.filterType;
    if t == Checkbox {
      r := r.(fields := Map(Unchecked, r.fields));
    }
    if t == Checkbox || t == Date {
      r := r.(fields := Map(Blanked, r.fields));
    }
    if t == Checkbox || t == Date || t == RadioButton {
      r := r.(radioValue := Some(-1));
    }
    ClearSteps(g);
  }

  /** handleClear's loop over the groups. */
  method ClearGroups(gs: seq<FilterGroup>) returns (cleared: seq<FilterGroup>)
    ensures cleared == Map(ClearGroup, gs)
  {
    cleared := [];
    for i := 0 to |gs|
      invariant cleared == Map(ClearGroup, gs[..i])
    {
      var g := ClearOne(gs[i]);
      assert gs[..i + 1][..i] == gs[..i];
      cleared := cleared + [g];
    }
    assert gs[..|gs|] == gs;
  }

  /** Clearing twice is clearing once. */
  lemma ClearIdempotent(g: FilterGroup)
    ensures ClearGroup(ClearGroup(g)) == ClearGroup(g)
  {
    var once, twice := ClearGroup(g), ClearGroup(ClearGroup(g));
    assert twice.fields == once.fields;
  }

  /** After Clear, Apply emits nothing for a CHECKBOX or DATE group; a
      RADIOBUTTON group keeps its field values (the cascade does not reach
      them) and may still yield a term. */
  lemma ClearThenApply(gs: seq<FilterGroup>)
    requires forall i :: 0 <= i < |gs| ==> gs[i].filterType == Checkbox || gs[i].filterType == Date
    ensures AllRadioSelectionsOk(Map(ClearGroup, gs))
    ensures AppliedTerms(Map(ClearGroup, gs)) == []
  {
    var cs := Map(ClearGroup, gs);
    forall i | 0 <= i < |cs| ensures RadioSelectionOk(cs[i]) && |TermOf(cs[i]).fields| == 0 {
      ClearedGroupYieldsNothing(gs[i]);
    }
    NoTermsWhenAllEmpty(cs);
  }

  lemma ClearedGroupYieldsNothing(g: FilterGroup)
    requires g.filterType == Checkbox || g.filterType == Date
    ensures RadioSelectionOk(ClearGroup(g)) && TermFields(ClearGroup(g)) == []
  {
    var c := ClearGroup(g);
    if g.filterType == Checkbox {
      assert forall k :: 0 <= k < |c.fields| ==> !IsChecked(c.fields[k]);
      FilterNone(IsChecked, c.fields);
    } else {
      assert forall k :: 0 <= k < |c.fields| ==> !HasValue(c.fields[k]);
      FilterNone(HasValue, c.fields);
    }
  }

  /** A radio group whose field keeps a value still yields a term after Clear. */
  lemma ClearKeepsRadioValues()
    ensures var g := FilterGroup("when", "When", NoLabel, RadioButton, [FilterField("day", None, false, Some("1"))], Some(0));
            AppliedTerms([ClearGroup(g)]) == [AppliedTerm("when", [Pair("day", "1")])]
  {
    var f := FilterField("day", None, false, Some("1"));
    var g := FilterGroup("when", "When", NoLabel, RadioButton, [f], Some(0));
    var c := ClearGroup(g);
    assert c.fields == [f];
    assert c.radioValue == Some(-1);
    assert Filter(HasValue, [f]) == [f] by {
      assert [f][..0] == [];
    }
    assert Map(FieldPair, [f]) == [Pair("day", "1")] by {
      assert [f][..0] == [];
    }
    assert TermOf(c) == AppliedTerm("when", [Pair("day", "1")]);
    assert [c][..0] == [];
  }

  /** Clear keeps every group's name and kind, so the builders' invariants survive. */
  lemma ClearKeepsNames(gs: seq<FilterGroup>)
    ensures Map(GroupName, Map(ClearGroup, gs)) == Map(GroupName, gs)
    ensures UniqueNames(gs) ==> UniqueNames(Map(ClearGroup, gs))
  {
  }

  // ----------------------------------------------------- reading the terms

  /** Array.prototype.find on the term name: the first term of that name. */
  function FindTerm(terms: seq<AppliedTerm>, name: string): (r: Option<AppliedTerm>)
    ensures r.None? <==> forall t :: t in terms ==> t.name != name
    ensures r.Some? ==> r.value in terms && r.value.name == name
    ensures r.Some? ==> exists k :: 0 <= k < |terms| && terms[k] == r.value && forall i :: 0 <= i < k ==> terms[i].name != name
  {
    if terms == [] then None
    else if terms[0].name == name then Some(terms[0])
    else
      var r := FindTerm(terms[1..], name);
      assert r.Some? ==> exists k :: 1 <= k < |terms| && terms[k] == r.value && forall i :: 0 <= i < k ==> terms[i].name != name by {
        if r.Some? {
          var k :| 0 <= k < |terms[1..]| && terms[1..][k] == r.value && forall i :: 0 <= i < k ==> terms[1..][i].name != name;
          assert forall i :: 1 <= i < k + 1 ==> terms[i] == terms[1..][i - 1];
        }
      }
      r
  }

  /** The first term of that name, if any, holds only names: lowercasing an
      object field would throw. */
  predicate NamesOnly(terms: seq<AppliedTerm>, name: string)
  {
    match FindTerm(terms, name)
    case None => true
    case Some(t) => forall x :: x in t.fields ==> x.Name?
  }

  /** handleFilter can read the three station dimensions of these terms. */
  predicate TermsFilterable(terms: seq<AppliedTerm>)
  {
    NamesOnly(terms, "tags") && NamesOnly(terms, "created") && NamesOnly(terms, "storage")
  }

  /** Apply over groups whose station dimensions are checkbox groups yields
      terms handleFilter can read. */
  lemma AppliedTermsFilterable(gs: seq<FilterGroup>)
    requires AllRadioSelectionsOk(gs) && DimensionsAreCheckbox(gs)
    ensures TermsFilterable(AppliedTerms(gs))
  {
    var terms := AppliedTerms(gs);
    forall t | t in terms && IsStationDimension(t.name) ensures forall x :: x in t.fields ==> x.Name? {
      AppliedTermsMembership(gs, t);
      var i :| 0 <= i < |gs| && TermOf(gs[i]) == t && |t.fields| > 0;
      assert gs[i].filterType == Checkbox;
    }
  }
}

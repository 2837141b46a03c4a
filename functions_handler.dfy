/**
 The function-manifest handlers of server/memphis_handlers_functions.go:
 validateYamlContent, which reports the required keys a decoded manifest
 lacks, and GetFunctionsDetails, which turns each fetched manifest into a
 result record.
 */
module FunctionsHandler {
  import opened Wrappers
  import opened Seqs

  /** A decoded YAML value: a string, a list, a mapping (keys taken as
      strings), or any other scalar (number, boolean, null). */
  datatype Value = Str(s: string) | List(items: seq<Value>) | Mapping(entries: map<string, Value>) | Other

  /** One manifest with where it came from. The commit date and the file's
      HTML URL stand for the two dereferenced fields in the source. */
  datatype FunctionDetails = FunctionDetails(
    contentMap: map<string, Value>,
    commitDate: string,
    htmlUrl: string,
    repoName: string,
    branch: string,
    owner: string)

  /** models.FunctionsResult. */
  datatype FunctionsResult = FunctionsResult(
    functionName: string,
    description: string,
    tags: seq<string>,
    language: string,
    lastCommit: string,
    link: string,
    repository: string,
    branch: string,
    owner: string)

  // ------------------------------------------------------- validateYamlContent

  const RequiredFields: seq<string> := ["function_name", "language"]

  /** The key test of the validator: is the field absent from the map? */
  function AbsentFrom(m: map<string, Value>): string -> bool
  {
    f => f !in m
  }

  /** The required fields the map lacks, in the order they are required. */
  function MissingFields(m: map<string, Value>): (r: seq<string>)
    ensures |r| <= |RequiredFields|
    ensures forall f :: f in r ==> f in RequiredFields && f !in m
  {
    Filter(AbsentFrom(m), RequiredFields)
  }

  /** The words of xs separated by single spaces, as `%v` prints a string slice
      between its brackets. */
  function Join(xs: seq<string>): (r: string)
    ensures |xs| == 1 ==> r == xs[0]
    ensures xs != [] ==> |xs[0]| <= |r| && r[..|xs[0]|] == xs[0]
    ensures xs != [] ==> |xs[|xs| - 1]| <= |r| && r[|r| - |xs[|xs| - 1]|..] == xs[|xs| - 1]
    ensures |xs| >= 2 ==> |r| > |xs[0]| && r[|xs[0]|] == ' '
  {
    if xs == [] then ""
    else if |xs| == 1 then xs[0]
    else
      var init := Join(xs[..|xs| - 1]);
      assert xs[..|xs| - 1][0] == xs[0];
      var r := init + " " + xs[|xs| - 1];
      assert r[..|xs[0]|] == init[..|xs[0]|];
      assert r[|r| - |xs[|xs| - 1]|..] == xs[|xs| - 1];
      assert |xs| == 2 ==> init == xs[0];
      assert r[|xs[0]|] == (init + " ")[|xs[0]|];
      r
  }

  const MessageHead: string := "Missing fields: ["

  const MessageTail: string := "]\n"

  /** The error text: the fixed head, the missing fields between brackets
      with the first one right after the opening bracket, and the tail. */
  function MissingMessage(missing: seq<string>): (r: string)
    ensures |r| >= |MessageHead| + |MessageTail|
    ensures r[..|MessageHead|] == MessageHead && r[|r| - |MessageTail|..] == MessageTail
    ensures missing != [] ==>
              |r| >= |MessageHead| + |missing[0]| && r[|MessageHead|..|MessageHead| + |missing[0]|] == missing[0]
    ensures |missing| == 1 ==> r == MessageHead + missing[0] + MessageTail
  {
    var j := Join(missing);
    var r := MessageHead + j + MessageTail;
    assert r[..|MessageHead|] == MessageHead;
    assert r[|r| - |MessageTail|..] == MessageTail;
    assert r[|MessageHead|..|MessageHead| + |j|] == j;
    r
  }

  /** validateYamlContent: None is the nil error. */
  method ValidateYamlContent(yamlMap: map<string, Value>) returns (err: Option<string>)
    ensures err == None ==> "function_name" in yamlMap && "language" in yamlMap
    ensures "function_name" in yamlMap && "language" in yamlMap ==> err == None
    ensures err.Some? ==> MissingFields(yamlMap) != [] && err.value == MissingMessage(MissingFields(yamlMap))
  {
    var missing: seq<string> := [];
    for i := 0 to |RequiredFields|
      invariant missing == Filter(AbsentFrom(yamlMap), RequiredFields[..i])
    {
      assert RequiredFields[..i + 1] == RequiredFields[..i] + [RequiredFields[i]];
      if RequiredFields[i] !in yamlMap {
        missing := missing + [RequiredFields[i]];
      }
    }
    assert RequiredFields[..|RequiredFields|] == RequiredFields;
    MissingFieldsSpec(yamlMap);
    if |missing| > 0 {
      err := Some(MissingMessage(missing));
    } else {
      err := None;
    }
  }

  /** The missing list keeps the required order, holds exactly the required
      fields that are absent, and is empty exactly when both are present. */
  lemma MissingFieldsSpec(m: map<string, Value>)
    ensures IsSubseq(MissingFields(m), RequiredFields)
    ensures forall f :: f in MissingFields(m) ==> f in RequiredFields && f !in m
    ensures forall f :: f in RequiredFields && f !in m ==> f in MissingFields(m)
    ensures MissingFields(m) == [] <==> "function_name" in m && "language" in m
  {
    var absent := AbsentFrom(m);
    FilterIsSubseq(absent, RequiredFields);
    forall f | f in RequiredFields && f !in m ensures f in MissingFields(m) {
      FilterKeeps(absent, RequiredFields, f);
    }
    if "function_name" !in m {
      assert "function_name" in RequiredFields;
    } else if "language" !in m {
      assert "language" in RequiredFields;
    }
  }

  /** Only key presence matters: maps with the same keys, whatever their
      values, are missing the same fields. */
  lemma PresenceOnly(m1: map<string, Value>, m2: map<string, Value>)
    requires m1.Keys == m2.Keys
    ensures MissingFields(m1) == MissingFields(m2)
  {
    FilterEquiv(AbsentFrom(m1), AbsentFrom(m2), RequiredFields);
  }

  /** An empty map is missing both fields, and the message lists them in
      order, separated by a space. */
  lemma EmptyManifestMessage()
    ensures MissingFields(map[]) == RequiredFields
    ensures MissingMessage(MissingFields(map[])) == MessageHead + "function_name" + " " + "language" + MessageTail
  {
    FilterAll(AbsentFrom(map[]), RequiredFields);
    TwoMissing(RequiredFields[0], RequiredFields[1]);
    assert RequiredFields == [RequiredFields[0], RequiredFields[1]];
  }

  /** Two missing fields are reported joined by one space. */
  lemma TwoMissing(a: string, b: string)
    ensures MissingMessage([a, b]) == MessageHead + a + " " + b + MessageTail
  {
    assert [a, b][..1] == [a];
    assert Join([a, b]) == a + " " + b;
  }

  // ------------------------------------------------------- GetFunctionsDetails

  /** What the extractor's type assertions demand: function_name and language
      are strings, and a tags list holds only mappings. Anything else panics. */
  predicate WellTyped(m: map<string, Value>)
  {
    && "function_name" in m && m["function_name"].Str?
    && "language" in m && m["language"].Str?
    && ("tags" in m && m["tags"].List? ==> forall t :: t in m["tags"].items ==> t.Mapping?)
  }

  function DescriptionOf(m: map<string, Value>): string
  {
    if "description" in m && m["description"].Str? then m["description"].s else ""
  }

  function TagItems(m: map<string, Value>): seq<Value>
  {
    if "tags" in m && m["tags"].List? then m["tags"].items else []
  }

  predicate HasStringValue(entries: map<string, Value>)
  {
    exists k :: k in entries && entries[k].Str?
  }

  /** s is what the inner loop can leave for one tag mapping: one of its string
      values (the last met, in Go's unspecified map order), or "" without one. */
  predicate IsTagString(entries: map<string, Value>, s: string)
  {
    if HasStringValue(entries) then exists k :: k in entries && entries[k] == Str(s) else s == ""
  }

  /** r is the result record GetFunctionsDetails builds from d. Such a record
      has no tags unless `tags` is a list, "" for a tag mapping without a
      string value, and "" for a description that is not a string. */
  predicate Describes(r: FunctionsResult, d: FunctionDetails): (b: bool)
    requires WellTyped(d.contentMap)
    ensures b && !("tags" in d.contentMap && d.contentMap["tags"].List?) ==> r.tags == []
    ensures b && "tags" in d.contentMap && d.contentMap["tags"].List? ==> |r.tags| == |d.contentMap["tags"].items|
    ensures b && !("description" in d.contentMap && d.contentMap["description"].Str?) ==> r.description == ""
    ensures b ==> forall j :: 0 <= j < |r.tags| && !HasStringValue(TagItems(d.contentMap)[j].entries) ==> r.tags[j] == ""
  {
    var m := d.contentMap;
    var items := TagItems(m);
    && r.functionName == m["function_name"].s
    && r.language == m["language"].s
    && r.description == DescriptionOf(m)
    && |r.tags| == |items|
    && (forall j :: 0 <= j < |items| ==> IsTagString(items[j].entries, r.tags[j]))
    && r.lastCommit == d.commitDate
    && r.link == d.htmlUrl
    && r.repository == d.repoName
    && r.branch == d.branch
    && r.owner == d.owner
  }

  /** The tag loop: tagsStrings[i] starts as "" and takes every string value
      of the i-th mapping, in map order. */
  method TagStrings(items: seq<Value>) returns (tags: seq<string>)
    requires forall t :: t in items ==> t.Mapping?
    ensures |tags| == |items|
    ensures forall j :: 0 <= j < |items| ==> IsTagString(items[j].entries, tags[j])
  {
    var tagsStrings := new string[|items|](_ => "");
    for i := 0 to |items|
      invariant forall j :: 0 <= j < i ==> IsTagString(items[j].entries, tagsStrings[j])
      invariant forall j :: i <= j < |items| ==> tagsStrings[j] == ""
    {
      assert items[i] in items;
      var tagMap := items[i].entries;
      var keys := tagMap.Keys;
      while keys != {}
        invariant keys <= tagMap.Keys
        invariant forall j :: 0 <= j < i ==> IsTagString(items[j].entries, tagsStrings[j])
        invariant forall j :: i < j < |items| ==> tagsStrings[j] == ""
        invariant (exists k :: k in tagMap && k !in keys && tagMap[k].Str?) ==>
                    exists k :: k in tagMap && tagMap[k] == Str(tagsStrings[i])
        invariant (forall k :: k in tagMap && k !in keys ==> !tagMap[k].Str?) ==> tagsStrings[i] == ""
        decreases keys
      {
        var k :| k in keys;
        if tagMap[k].Str? {
          tagsStrings[i] := tagMap[k].s;
        }
        keys := keys - {k};
      }
    }
    tags := tagsStrings[..];
  }

  /** GetFunctionsDetails: one result per manifest, in input order; the error
      is always nil. */
  method GetFunctionsDetails(functionsDetails: seq<FunctionDetails>)
    returns (functions: seq<FunctionsResult>, err: Option<string>)
    requires forall i :: 0 <= i < |functionsDetails| ==> WellTyped(functionsDetails[i].contentMap)
    ensures err == None
    ensures |functions| == |functionsDetails|
    ensures forall i :: 0 <= i < |functionsDetails| ==> Describes(functions[i], functionsDetails[i])
  {
    functions := [];
    for i := 0 to |functionsDetails|
      invariant |functions| == i
      invariant forall j :: 0 <= j < i ==> Describes(functions[j], functionsDetails[j])
    {
      var d := functionsDetails[i];
      var m := d.contentMap;
      var tagsStrings: seq<string> := [];
      if "tags" in m && m["tags"].List? {
        tagsStrings := TagStrings(m["tags"].items);
      }
      var description := if "description" in m && m["description"].Str? then m["description"].s else "";
      var result := FunctionsResult(m["function_name"].s, description, tagsStrings, m["language"].s,
                                    d.commitDate, d.htmlUrl, d.repoName, d.branch, d.owner);
      functions := functions + [result];
    }
    err := None;
  }

  // ------------------------------------------------------- between the two

  /** A manifest the extractor accepts without panicking passes the validator. */
  lemma WellTypedIsValid(m: map<string, Value>)
    requires WellTyped(m)
    ensures MissingFields(m) == []
  {
    MissingFieldsSpec(m);
  }

  /** A tag mapping with at most one string value yields a determined tag: that
      value, or "" without one. */
  lemma TagStringDetermined(entries: map<string, Value>, s1: string, s2: string)
    requires forall k1, k2 :: k1 in entries && k2 in entries && entries[k1].Str? && entries[k2].Str? ==> k1 == k2
    requires IsTagString(entries, s1) && IsTagString(entries, s2)
    ensures s1 == s2
  {
    if HasStringValue(entries) {
      var k1 :| k1 in entries && entries[k1] == Str(s1);
      var k2 :| k2 in entries && entries[k2] == Str(s2);
      assert k1 == k2;
    }
  }
}

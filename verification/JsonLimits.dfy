/** Where the verdict is wrong: keywords that are not compared, a requirement that a default seems to
    excuse, and references inside combinators. */
module JsonLimits {
  import opened Wrappers
  import opened Canonical
  import opened JsonKinds
  import opened JsonDiff
  import opened JsonCompare
  import opened JsonMeaning
  import opened JsonSoundness
  import opened JsonKeywords

  // ------------------------------------------------------------------
  // Schemas that are compared by their properties alone
  // ------------------------------------------------------------------

  const FEW: set<string> := {"type", "properties", "required", "items", "allOf"}

  ghost predicate Few(s: Json) { forall key <- COMPARED :: key in FEW || Get(s, key).None? }

  /** Few keywords; the same types and allOf; no items before. */
  ghost predicate Quiet(o: Json, u: Json) {
    && Few(o) && Few(u) && TypesOf(o) == TypesOf(u) && GetArray(o, "allOf") == GetArray(u, "allOf")
    && Get(o, "items").None?
  }

  lemma Missing(s: Json, key: string)
    requires Few(s) && key in COMPARED && key !in FEW
    ensures Get(s, key).None?
  {}

  lemma QuietObject(env: Env, o: Json, u: Json)
    requires Quiet(o, u)
    ensures CompareType(o, u) == [] && CompareEnum(env, o, u) == [] && CompareAdditionalProperties(o, u) == []
    ensures RefOf(o).None? && RefOf(u).None?
  {
    hide Part, Few;
    forall key | key in {"enum", "const", "additionalProperties", "$ref"}
      ensures Get(o, key).None? && Get(u, key).None?
    {
      Missing(o, key);
      Missing(u, key);
    }
  }

  lemma QuietBound(o: Json, u: Json, b: Bound)
    requires Quiet(o, u)
    ensures CompareBound(o, u, b) == []
  {
    hide Part, Few;
    Missing(o, Keyword(b));
    Missing(u, Keyword(b));
  }

  lemma QuietValues(o: Json, u: Json)
    requires Quiet(o, u)
    ensures CompareValues(o, u) == []
  {
    hide Part, CompareBound, Quiet, Keyword;
    forall b ensures CompareBound(o, u, b) == [] { QuietBound(o, u, b); }
    QuietRest(o, u);
  }

  lemma QuietRest(o: Json, u: Json)
    requires Quiet(o, u)
    ensures CompareMultipleOf(o, u) == [] && ComparePattern(o, u) == [] && CompareItems(o, u) == []
    ensures CompareAdditionalItems(o, u) == [] && !IsUnique(o) && !IsUnique(u)
  {
    hide Part, Few;
    forall key | key in {"multipleOf", "pattern", "additionalItems", "uniqueItems"}
      ensures Get(o, key).None? && Get(u, key).None?
    {
      Missing(o, key);
      Missing(u, key);
    }
  }

  lemma QuietTrailing(env: Env, o: Json, u: Json)
    requires Quiet(o, u)
    ensures Trailing(env, o, u) == []
  {
    hide Part, Few;
    forall key | key in {"dependencies", "if", "then", "else"} ensures Get(o, key).None? && Get(u, key).None? {
      Missing(o, key);
      Missing(u, key);
    }
    assert GetObject(o, "dependencies") == map[] && GetObject(u, "dependencies") == map[];
  }

  lemma QuietCombinators(ok: Verdict, o: Json, u: Json)
    requires Quiet(o, u)
    ensures CompareCombinators(ok, o, u) == Some([])
  {
    hide Part, Few;
    forall key | key in {"anyOf", "oneOf", "not"} ensures Get(o, key).None? && Get(u, key).None? {
      Missing(o, key);
      Missing(u, key);
    }
    EqualBranchesAreSkipped(ok, o, u);
  }

  /** Equal lists of branches and equal negations are skipped without a look at any branch. */
  lemma EqualBranchesAreSkipped(ok: Verdict, o: Json, u: Json)
    requires GetArray(o, "allOf") == GetArray(u, "allOf") && SumOf(o) == SumOf(u) && Get(o, "not") == Get(u, "not")
    ensures CompareCombinators(ok, o, u) == Some([])
  {
    hide Part, SumOf, Paired;
    var none: seq<Kind> := [];
    assert none + none + none == none;
    assert CompareAllOf(ok, o, u) == Some([]) && CompareSum(ok, o, u) == Some([]) && CompareNot(ok, o, u) == Some([]);
  }

  /** Such schemas are compared by their properties alone. */
  lemma ComparedByProperties(env: Env, fuel: nat, c: Context, o: Json, u: Json)
    requires fuel > 0 && Quiet(o, u)
    ensures Compare(env, fuel, c, o, u) == Run(env, fuel, c, CompareProperties(env, o, u) + CompareRequired(o, u))
  {
    hide Part, Quiet, Run, CompareProperties, CompareRequired, CompareType, CompareEnum,
         CompareAdditionalProperties, CompareValues, Trailing, CompareCombinators, RefOf;
    QuietObject(env, o, u);
    QuietValues(o, u);
    QuietTrailing(env, o, u);
    QuietCombinators((a, b) => Compatible(env, fuel - 1, JsonCompare.Fresh(c), a, b), o, u);
    var items := CompareProperties(env, o, u) + CompareRequired(o, u);
    assert Leading(env, o, u) == items;
    NothingRuns(env, fuel, c);
    if Run(env, fuel, c, items).Some? {
      assert Run(env, fuel, c, items).value + [] + [] == Run(env, fuel, c, items).value;
    }
  }

  lemma NothingRuns(env: Env, fuel: nat, c: Context)
    requires fuel > 0
    ensures Run(env, fuel, c, []) == Some([])
  {}

  // ------------------------------------------------------------------
  // A required property with a default
  // ------------------------------------------------------------------

  const PLAIN_PROPERTY: Json := Obj(map[])

  const DEFAULTED: Json := Obj(map["default" := Null])

  const OPTIONAL: Json := Obj(map["properties" := Obj(map["a" := PLAIN_PROPERTY])])

  const REQUIRED: Json := Obj(map["properties" := Obj(map["a" := DEFAULTED]), "required" := Arr([Str("a")])])

  lemma OneKey(k: string)
    ensures SortedKeys({k}) == [k]
  {
    assert {k} - {Least({k})} == {};
  }

  lemma ExampleKeywords()
    ensures Properties(OPTIONAL) == map["a" := PLAIN_PROPERTY] && Properties(REQUIRED) == map["a" := DEFAULTED]
    ensures RequiredSet(OPTIONAL) == {} && RequiredSet(REQUIRED) == {"a"} && Get(DEFAULTED, "default").Some?
  {
    hide Part;
    assert RequiredSet(REQUIRED) == Strings([Str("a")]) == {"a"};
  }

  lemma OneShared(env: Env, o: Json, u: Json, k: string)
    requires k in Properties(o) && k in Properties(u)
    ensures RemovedProperties(env, o, u, [k]) == []
    ensures UpdatedProperties(env, o, u, [k]) == [Descend(Properties(o)[k], Properties(u)[k])]
  {
    hide Part, Properties, PropertyAdded, PropertyRemoved;
    assert [k][0] == k && [k][1..] == [];
    assert RemovedProperties(env, o, u, []) == [] && UpdatedProperties(env, o, u, []) == [];
    var d: Items := [Descend(Properties(o)[k], Properties(u)[k])];
    assert d + [] == d;
  }

  lemma ExampleItems(env: Env)
    ensures CompareProperties(env, OPTIONAL, REQUIRED)
        + CompareRequired(OPTIONAL, REQUIRED) == [Descend(PLAIN_PROPERTY, DEFAULTED), Report(RequiredWithDefaultAdded)]
  {
    hide Part, Properties, RequiredSet, Get, PropertyAdded, PropertyRemoved, SortedKeys;
    OneKey("a");
    NoKeys();
    ExampleKeywords();
    var o, u := OPTIONAL, REQUIRED;
    assert Properties(o).Keys == {"a"} && Properties(u).Keys == {"a"};
    assert RequiredSet(u) - RequiredSet(o) == {"a"} && RequiredSet(o) - RequiredSet(u) == {};
    OneShared(env, o, u, "a");
    assert ["a"][1..] == [];
    assert NewlyRequired(o, u, ["a"]) == [Report(RequiredWithDefaultAdded)];
  }

  lemma NoKeys()
    ensures SortedKeys({}) == []
  {}

  lemma PropertyItems(env: Env)
    ensures CompareProperties(env, PLAIN_PROPERTY, DEFAULTED) + CompareRequired(PLAIN_PROPERTY, DEFAULTED) == []
  {
    var o, u := PLAIN_PROPERTY, DEFAULTED;
    assert Properties(o) == map[] && Properties(u) == map[] && RequiredSet(o) == {} && RequiredSet(u) == {};
  }

  lemma FewKeys(s: Json)
    requires s.Obj? && forall k <- s.fields :: k in FEW || k !in COMPARED
    ensures Few(s)
  {
    hide Part;
  }

  lemma ExamplesAreQuiet()
    ensures Quiet(OPTIONAL, REQUIRED) && Quiet(PLAIN_PROPERTY, DEFAULTED)
  {
    hide Part, Few;
    FewKeys(OPTIONAL);
    FewKeys(REQUIRED);
    FewKeys(PLAIN_PROPERTY);
    FewKeys(DEFAULTED);
  }

  /** The verdict is positive, yet the empty object is an instance of the old schema and not of the new. */
  lemma DefaultedRequirementIsMissed(env: Env, c: Context)
    ensures Compatible(env, 2, c, OPTIONAL, REQUIRED) == Some(true)
    ensures Valid(env, OPTIONAL, Obj(map[])) && !Valid(env, REQUIRED, Obj(map[]))
  {
    hide Compare, Compatible, CompareProperties, CompareRequired, Valid;
    ExamplesAreQuiet();
    ExampleItems(env);
    PropertyItems(env);
    ComparedByProperties(env, 2, c, OPTIONAL, REQUIRED);
    ComparedByProperties(env, 1, c, PLAIN_PROPERTY, DEFAULTED);
    ExampleVerdict(env, c);
    ExampleInstances(env);
  }

  lemma ExampleVerdict(env: Env, c: Context)
    requires Compare(env, 2, c, OPTIONAL, REQUIRED) == Run(env, 2, c,
            [Descend(PLAIN_PROPERTY, DEFAULTED), Report(RequiredWithDefaultAdded)])
    requires Compare(env, 1, c, PLAIN_PROPERTY, DEFAULTED) == Run(env, 1, c, [])
    ensures Compatible(env, 2, c, OPTIONAL, REQUIRED) == Some(true)
  {
    hide Leading, Trailing, CompareCombinators, RefOf, Followed, GuardKey;
    var items := [Descend(PLAIN_PROPERTY, DEFAULTED), Report(RequiredWithDefaultAdded)];
    assert items[1..] == [Report(RequiredWithDefaultAdded)] && items[1..][1..] == [];
    NothingRuns(env, 1, c);
    NothingRuns(env, 2, c);
    var kinds: seq<Kind> := [RequiredWithDefaultAdded];
    assert kinds + [] == kinds && [] + kinds == kinds;
    assert Run(env, 2, c, items[1..]) == Some(kinds);
    assert Run(env, 2, c, items) == Some(kinds);
  }

  lemma OptionalKeywords()
    ensures KeywordsOk(OPTIONAL) && RequiredSet(OPTIONAL) == {} && RequiredSet(REQUIRED) == {"a"}
  {
    hide Part;
    ExampleKeywords();
  }

  lemma OptionalIsFlat(env: Env, i: Json)
    requires i == Obj(map[])
    ensures Flat(env, OPTIONAL, i)
  {
    hide Part, Measure, BoundHolds, HasType, KeywordsOk;
    OptionalKeywords();
    forall b ensures BoundValid(OPTIONAL, b, i) { assert Keyword(b) != "properties"; }
  }

  lemma ExampleInstances(env: Env)
    ensures Valid(env, OPTIONAL, Obj(map[])) && !Valid(env, REQUIRED, Obj(map[]))
  {
    hide Part, Flat, KeywordsOk, ItemsValid, NamesValid, ConditionsValid;
    OptionalKeywords();
    OptionalIsFlat(env, Obj(map[]));
    assert Flat(env, OPTIONAL, Obj(map[])) ==> MembersValid(env, OPTIONAL, Obj(map[])) by {
      FlatMembers(env, OPTIONAL, Obj(map[]));
    }
    OthersValid(env, OPTIONAL, Obj(map[]));
    FlatMembers(env, REQUIRED, Obj(map[]));
    assert "a" in RequiredSet(REQUIRED) && !MembersValid(env, REQUIRED, Obj(map[]));
  }

  lemma FlatMembers(env: Env, s: Json, i: Json)
    ensures Flat(env, s, i) ==> MembersValid(env, s, i)
  {}

  lemma HarmlessConcat(a: Items, b: Items)
    ensures Harmless(a + b) <==> Harmless(a) && Harmless(b)
  {
    if Harmless(a + b) { PartsHarmless(a, b); }
  }

  // A new requirement that is noticed: of a property that both schemas declare, without a default.
  predicate Noticed(o: Json, u: Json, name: string) {
    name in Properties(o) && name in Properties(u) && Get(Properties(u)[name], "default").None?
  }

  lemma {:induction false} NewlyRequiredIff(o: Json, u: Json, names: seq<string>)
    ensures Harmless(NewlyRequired(o, u, names)) <==> forall name <- names :: !Noticed(o, u, name)
  {
    hide Part, Properties;
    if names != [] {
      var first: Items := if names[0] in Properties(o) && names[0] in Properties(u)
                          then [Report(if Noticed(o, u, names[0]) then RequiredAdded else RequiredWithDefaultAdded)]
                          else [];
      HarmlessConcat(first, NewlyRequired(o, u, names[1..]));
      NewlyRequiredIff(o, u, names[1..]);
      assert first != [] ==> first[0] in first;
      assert names == [names[0]] + names[1..];
    }
  }

  /** New requirements are accepted exactly when none is noticed: all of them are excused by a default, or
      concern properties that one of the schemas does not declare. */
  lemma RequirementsAcceptedIff(o: Json, u: Json)
    ensures Harmless(CompareRequired(o, u)) <==> forall name <- RequiredSet(u) - RequiredSet(o) :: !Noticed(o, u, name)
  {
    hide Part, RequiredSet, Noticed, NewlyRequired;
    var names := SortedKeys(RequiredSet(u) - RequiredSet(o));
    NewlyRequiredIff(o, u, names);
    var gone := |SortedKeys(RequiredSet(o) - RequiredSet(u))|;
    HarmlessConcat(NewlyRequired(o, u, names), seq(gone, _ => Report(RequiredRemoved)));
  }

  // ------------------------------------------------------------------
  // Keywords that are not compared
  // ------------------------------------------------------------------

  function Typed(t: string): Json { Obj(map["type" := Str(t)]) }

  function TypedWith(t: string, key: string, v: Json): Json { Obj(map["type" := Str(t), key := v]) }

  // A keyword that is not compared, or a first `items`, is accepted.
  lemma AcceptedKeyword(env: Env, c: Context, t: string, key: string, v: Json)
    requires key !in COMPARED || key == "items"
    ensures Compatible(env, 1, c, Typed(t), TypedWith(t, key, v)) == Some(true)
  {
    hide Part, Compare, Quiet, CompareProperties, CompareRequired;
    var o, u := Typed(t), TypedWith(t, key, v);
    TypedIsQuiet(t, key, v);
    ComparedByProperties(env, 1, c, o, u);
    TypedProperties(env, o, u);
    NothingRuns(env, 1, c);
  }

  lemma NoProperties(s: Json)
    requires Get(s, "properties").None? && Get(s, "required").None?
    ensures Properties(s) == map[] && RequiredSet(s) == {}
  {
    hide Part;
  }

  lemma TypedIsQuiet(t: string, key: string, v: Json)
    requires key !in COMPARED || key == "items"
    ensures Quiet(Typed(t), TypedWith(t, key, v))
    ensures Properties(Typed(t)) == map[] == Properties(TypedWith(t, key, v))
    ensures RequiredSet(Typed(t)) == {} == RequiredSet(TypedWith(t, key, v))
  {
    hide Part, Few, Properties, RequiredSet;
    assert "type" in COMPARED && "properties" in COMPARED && "required" in COMPARED && "allOf" in COMPARED;
    FewKeys(Typed(t));
    FewKeys(TypedWith(t, key, v));
    NoProperties(Typed(t));
    NoProperties(TypedWith(t, key, v));
  }

  lemma TypedProperties(env: Env, o: Json, u: Json)
    requires Properties(o) == map[] == Properties(u) && RequiredSet(o) == {} == RequiredSet(u)
    ensures CompareProperties(env, o, u) + CompareRequired(o, u) == []
  {
    hide Part, Properties, RequiredSet;
    NoKeys();
  }

  lemma TypedAccepts(env: Env, t: string, i: Json)
    requires HasType(i, t)
    ensures Valid(env, Typed(t), i)
  {
    hide Part, Measure, BoundHolds, HasType;
    var s := Typed(t);
    assert t in TypesOf(s) && RequiredSet(s) == {};
    forall b ensures BoundValid(s, b, i) { assert Keyword(b) != "type"; }
    assert Flat(env, s, i);
    OthersValid(env, s, i);
  }

  /** `items` added to a schema without: accepted, and [null] is lost. */
  lemma AddedItemsAreMissed(env: Env, c: Context)
    ensures var o, u, i := Typed("array"), TypedWith("array", "items", Typed("string")), Arr([Null]);
            Compatible(env, 1, c, o, u) == Some(true) && Valid(env, o, i) && !Valid(env, u, i)
  {
    hide Compatible, Flat, NamesValid, ConditionsValid, Part;
    var u, i := TypedWith("array", "items", Typed("string")), Arr([Null]);
    AcceptedKeyword(env, c, "array", "items", Typed("string"));
    TypedAccepts(env, "array", i);
    NotAString(env);
    assert Null in i.items && !ItemsValid(env, u, i);
  }

  lemma NotAString(env: Env)
    ensures !Valid(env, Typed("string"), Null)
  {
    assert TypesOf(Typed("string")) == {"string"} && !TypeValid(Typed("string"), Null);
  }

  /** `contains`, which is not compared: accepted, and the empty array is lost. */
  lemma ContainsIsMissed(env: Env, c: Context)
    ensures var o, u, i := Typed("array"), TypedWith("array", "contains", Obj(map[])), Arr([]);
            Compatible(env, 1, c, o, u) == Some(true) && Valid(env, o, i) && !Valid(env, u, i)
  {
    hide Compatible, Flat, NamesValid, ConditionsValid, Part;
    var u, i := TypedWith("array", "contains", Obj(map[])), Arr([]);
    AcceptedKeyword(env, c, "array", "contains", Obj(map[]));
    TypedAccepts(env, "array", i);
    assert !ItemsValid(env, u, i);
  }

  /** `propertyNames`, which is not compared: accepted, and an object with a member is lost. */
  lemma PropertyNamesAreMissed(env: Env, c: Context)
    ensures var o, u, i := Typed("object"), TypedWith("object", "propertyNames", Typed("null")), Obj(map["a" := Null]);
            Compatible(env, 1, c, o, u) == Some(true) && Valid(env, o, i) && !Valid(env, u, i)
  {
    hide Compatible, Flat, ItemsValid, ConditionsValid, Part;
    var u, i := TypedWith("object", "propertyNames", Typed("null")), Obj(map["a" := Null]);
    AcceptedKeyword(env, c, "object", "propertyNames", Typed("null"));
    TypedAccepts(env, "object", i);
    NotANull(env);
    assert "a" in i.fields && !NamesValid(env, u, i);
  }

  lemma NotANull(env: Env)
    ensures !Valid(env, Typed("null"), Str("a"))
  {
    assert TypesOf(Typed("null")) == {"null"} && !TypeValid(Typed("null"), Str("a"));
  }

  // ------------------------------------------------------------------
  // References inside combinators
  // ------------------------------------------------------------------

  function Ref(text: string): Json { Obj(map["$ref" := Str(text)]) }

  // An allOf of one reference, and what the document keeps under "d".
  function Behind(v: Json): Json { Obj(map["allOf" := Arr([Ref("#/d")]), "d" := v]) }

  lemma BehindKeywords(v: Json)
    ensures Few(Behind(v)) && Properties(Behind(v)) == map[] && RequiredSet(Behind(v)) == {} && TypesOf(Behind(v)) == {}
    ensures GetArray(Behind(v), "allOf") == Some([Ref("#/d")]) && Get(Behind(v), "items").None?
  {
    hide Part, Few, Properties, RequiredSet;
    assert "d" !in COMPARED;
    FewKeys(Behind(v));
    NoProperties(Behind(v));
  }

  lemma BehindIsQuiet(v: Json, w: Json)
    ensures Quiet(Behind(v), Behind(w))
    ensures Properties(Behind(v)) == map[] == Properties(Behind(w))
    ensures RequiredSet(Behind(v)) == {} == RequiredSet(Behind(w))
  {
    hide Behind, Few, Properties, RequiredSet, TypesOf, Get, GetArray;
    BehindKeywords(v);
    BehindKeywords(w);
  }

  lemma OneLetter()
    ensures Tokens("d") == ["d"] && Unescape("d") == "d"
  {
    assert "d"[1..] == "" && Tokens("") == [""] && Unescape("") == "";
    assert ['d'] + "" == "d" && [""][1..] == [];
  }

  lemma BehindResolves(v: Json)
    ensures ResolveText(Side(Behind(v), []), "#/d") == Some(v)
  {
    hide Part, Tokens, Unescape;
    OneLetter();
    var root := Behind(v);
    assert "#/d"[1..] == "/d" && "/d"[1..] == "d" && ["d"][1..] == [];
    assert Walk(root.fields["d"], []) == Some(v) && Walk(root, ["d"]) == Some(v);
    assert Pointer(root, "/d") == Walk(root, Tokens("d"));
  }

  // What a reference in both documents compares instead.
  lemma RefsStep(env: Env, fuel: nat, c: Context, r: string, t: string)
    requires c.visited == {} && ResolveText(c.orig, r).Some? && ResolveText(c.upd, t).Some?
    ensures Compare(env, fuel + 1, c, Ref(r), Ref(t)) ==
            Compare(env, fuel, Guarding(c, Ref(r), Ref(t)), ResolveText(c.orig, r).value, ResolveText(c.upd, t).value)
  {
    hide Part, Leading, Trailing, CompareCombinators, Run, ResolveText;
    assert RefOf(Ref(r)) == Some(r) && RefOf(Ref(t)) == Some(t);
  }

  lemma StringInFragment()
    ensures Fragment(Typed("string")) && Fragment(Obj(map[]))
  {
    hide Part;
    assert TypesOf(Typed("string")) == {"string"};
    assert RequiredSet(Typed("string")) == {} == RequiredSet(Obj(map[]));
    assert Properties(Typed("string")) == map[] == Properties(Obj(map[]));
  }

  lemma BehindIsAccepted(env: Env, c: Context, v: Json, w: Json)
    ensures Compatible(env, 1, c, Behind(v), Behind(w)) == Some(true)
  {
    hide Compare, Quiet, CompareProperties, CompareRequired, Behind;
    BehindIsQuiet(v, w);
    ComparedByProperties(env, 1, c, Behind(v), Behind(w));
    TypedProperties(env, Behind(v), Behind(w));
    NothingRuns(env, 1, c);
  }

  lemma StringIsRejected(env: Env, fuel: nat, c: Context)
    requires PrintsNumbers(env.show)
    ensures Compatible(env, fuel, c, Obj(map[]), Typed("string")) != Some(true)
  {
    hide Compatible, Fragment, Valid, Part;
    StringInFragment();
    EmptyAccepts(env, Null);
    NotAString(env);
    if Compatible(env, fuel, c, Obj(map[]), Typed("string")) == Some(true) {
      VerdictIsSound(env, fuel, c, Obj(map[]), Typed("string"), Null);
    }
  }

  /** Equal `allOf` texts with a `$ref` are accepted although the definitions behind them differ: the
      branches are not compatible, and the comparison of the documents is positive. */
  lemma DefinitionsBehindAreMissed(env: Env, fuel: nat, visited: set<(string, string)>)
    requires PrintsNumbers(env.show)
    ensures var o, u := Behind(Obj(map[])), Behind(Typed("string"));
            var c := Context(Side(o, []), Side(u, []), visited);
            && Compatible(env, 1, c, o, u) == Some(true)
            && Compatible(env, fuel, JsonCompare.Fresh(c), Ref("#/d"), Ref("#/d")) != Some(true)
  {
    hide Compare, ResolveText, Behind, Part;
    var o, u := Behind(Obj(map[])), Behind(Typed("string"));
    var start := Context(Side(o, []), Side(u, []), {});
    BehindIsAccepted(env, start.(visited := visited), Obj(map[]), Typed("string"));
    BehindResolves(Obj(map[]));
    BehindResolves(Typed("string"));
    if fuel > 0 {
      RefsStep(env, fuel - 1, start, "#/d", "#/d");
      StringIsRejected(env, fuel - 1, Guarding(start, Ref("#/d"), Ref("#/d")));
    } else {
      NoFuel(env, start, Ref("#/d"), Ref("#/d"));
    }
  }

  /** Negated references change sides but not documents: the new branch is looked up in the old document
      and the old branch in the new one. */
  lemma NegatedReferencesSwap(env: Env, fuel: nat, c: Context, r: string, t: string)
    requires r != t && ResolveText(c.orig, t).Some? && ResolveText(c.upd, r).Some?
    ensures var ok: Verdict := (a, b) => Compatible(env, fuel + 1, JsonCompare.Fresh(c), a, b);
            var start := JsonCompare.Fresh(c);
            CompareNot(ok, Obj(map["not" := Ref(r)]), Obj(map["not" := Ref(t)])) ==
            Chosen(Compatible(env, fuel, Guarding(start, Ref(t), Ref(r)), ResolveText(c.orig, t).value,
                              ResolveText(c.upd, r).value),
                   NotTypeNarrowed, NotTypeExtended)
  {
    hide Compare, ResolveText, Part, Guarding;
    RefsStep(env, fuel, JsonCompare.Fresh(c), t, r);
    assert Ref(r).fields["$ref"] != Ref(t).fields["$ref"];
  }
}

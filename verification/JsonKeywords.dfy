/** Which keywords the comparison looks at: no other keyword of the compared schemas changes its result. */
module JsonKeywords {
  import opened Wrappers
  import opened Canonical
  import opened JsonKinds
  import opened JsonDiff
  import opened JsonCompare

  const COMPARED: set<string> := {
    "$ref", "type", "enum", "const", "properties", "required", "additionalProperties", "patternProperties",
    "maximum", "minimum", "exclusiveMaximum", "exclusiveMinimum", "maxLength", "minLength", "maxItems", "minItems",
    "maxProperties", "minProperties", "multipleOf", "pattern", "items", "additionalItems", "uniqueItems",
    "allOf", "anyOf", "oneOf", "not", "dependencies", "if", "then", "else"}

  /** The two schemas have the same compared keywords. */
  ghost predicate Agree(s: Json, t: Json) { forall k <- COMPARED :: Get(s, k) == Get(t, k) }

  lemma SameReads(s: Json, t: Json, key: string)
    requires Get(s, key) == Get(t, key)
    ensures GetArray(s, key) == GetArray(t, key) && GetObject(s, key) == GetObject(t, key)
    ensures GetText(s, key) == GetText(t, key) && GetNumber(s, key) == GetNumber(t, key)
  {
    hide Part;
  }

  // What the comparisons read of a schema.
  lemma SameParts(env: Env, s: Json, t: Json)
    requires Agree(s, t)
    ensures TypesOf(s) == TypesOf(t) && Properties(s) == Properties(t) && RequiredSet(s) == RequiredSet(t)
    ensures ModelOf(s) == ModelOf(t) && EnumSet(env, s) == EnumSet(env, t) && IsUnique(s) == IsUnique(t)
    ensures SumOf(s) == SumOf(t) && RefOf(s) == RefOf(t)
  {
    hide Part;
    assert {"type", "properties", "required", "additionalProperties", "patternProperties"} <= COMPARED;
    assert {"enum", "const", "uniqueItems", "anyOf", "oneOf", "$ref"} <= COMPARED;
    SameReads(s, t, "type");
    SameReads(s, t, "properties");
    SameReads(s, t, "required");
    SameReads(s, t, "enum");
    SameReads(s, t, "anyOf");
    SameReads(s, t, "oneOf");
    SameReads(s, t, "$ref");
  }

  lemma BoundCompared(b: Bound)
    ensures Keyword(b) in COMPARED
  {}

  lemma SameBound(o: Json, u: Json, p: Json, v: Json, b: Bound)
    requires Agree(o, p) && Agree(u, v)
    ensures CompareBound(o, u, b) == CompareBound(p, v, b)
  {
    hide Part, GetNumber;
    BoundCompared(b);
    SameReads(o, p, Keyword(b));
    SameReads(u, v, Keyword(b));
  }

  lemma SameNumeric(o: Json, u: Json, p: Json, v: Json)
    requires Agree(o, p) && Agree(u, v)
    ensures CompareNumeric(o, u) == CompareNumeric(p, v)
  {
    hide Part, CompareBound, CompareMultipleOf, ComparePattern, Agree, OnlyReports;
    SameBound(o, u, p, v, Maximum);
    SameBound(o, u, p, v, Minimum);
    SameBound(o, u, p, v, ExclusiveMaximum);
    SameBound(o, u, p, v, ExclusiveMinimum);
    SamePattern(o, u, p, v);
  }

  lemma SameString(o: Json, u: Json, p: Json, v: Json)
    requires Agree(o, p) && Agree(u, v)
    ensures CompareString(o, u) == CompareString(p, v)
  {
    hide Part, CompareBound, CompareMultipleOf, ComparePattern, Agree, OnlyReports;
    SameBound(o, u, p, v, MaxLength);
    SameBound(o, u, p, v, MinLength);
    SamePattern(o, u, p, v);
  }

  lemma SameSize(o: Json, u: Json, p: Json, v: Json)
    requires Agree(o, p) && Agree(u, v)
    ensures CompareSize(o, u) == CompareSize(p, v)
  {
    hide Part, CompareBound, Agree, OnlyReports;
    SameBound(o, u, p, v, MaxProperties);
    SameBound(o, u, p, v, MinProperties);
  }

  lemma SamePattern(o: Json, u: Json, p: Json, v: Json)
    requires Agree(o, p) && Agree(u, v)
    ensures CompareMultipleOf(o, u) == CompareMultipleOf(p, v) && ComparePattern(o, u) == ComparePattern(p, v)
  {
    hide Part, Divisible, GetNumber, GetText;
    assert "multipleOf" in COMPARED && "pattern" in COMPARED;
    SameReads(o, p, "multipleOf");
    SameReads(u, v, "multipleOf");
    SameReads(o, p, "pattern");
    SameReads(u, v, "pattern");
  }

  lemma SameItems(o: Json, u: Json, p: Json, v: Json)
    requires Agree(o, p) && Agree(u, v)
    ensures CompareItems(o, u) == CompareItems(p, v)
  {
    hide Part, CompareTuples, AllInner, GetArray;
    assert "items" in COMPARED;
    SameReads(o, p, "items");
    SameReads(u, v, "items");
    assert Get(o, "items") == Get(p, "items") && Get(u, "items") == Get(v, "items");
    hide Get, Agree;
  }

  lemma SameAdditionalItems(o: Json, u: Json, p: Json, v: Json)
    requires Agree(o, p) && Agree(u, v)
    ensures CompareAdditionalItems(o, u) == CompareAdditionalItems(p, v)
  {
    hide Part, AllInner, Get;
    assert "additionalItems" in COMPARED;
  }

  lemma SameArray(env: Env, o: Json, u: Json, p: Json, v: Json)
    requires Agree(o, p) && Agree(u, v)
    ensures CompareArray(o, u) == CompareArray(p, v)
  {
    hide Part, CompareBound, IsUnique, CompareItems, CompareAdditionalItems, AllInner, Agree, TypesOf, RequiredSet,
         Properties, ModelOf, EnumSet, SumOf, RefOf;
    SameItems(o, u, p, v);
    SameAdditionalItems(o, u, p, v);
    SameBound(o, u, p, v, MaxItems);
    SameBound(o, u, p, v, MinItems);
    SameParts(env, o, p);
    SameParts(env, u, v);
  }

  // ------------------------------------------------------------------
  // Properties
  // ------------------------------------------------------------------

  lemma {:induction false} SamePatterns(env: Env, s: Json, t: Json, patterns: map<string, Json>, keys: seq<string>,
          name: string)
    requires (forall k <- keys :: k in patterns) && forall k <- patterns :: Part(patterns[k], s) && Part(patterns[k], t)
    ensures MatchingPatterns(env, s, patterns, keys, name) == MatchingPatterns(env, t, patterns, keys, name)
  {
    hide Part;
    if keys != [] { SamePatterns(env, s, t, patterns, keys[1..], name); }
  }

  lemma SameCovering(env: Env, s: Json, t: Json, name: string)
    requires Agree(s, t)
    ensures Covering(env, s, name) == Covering(env, t, name)
  {
    hide Part;
    assert "patternProperties" in COMPARED;
    SameReads(s, t, "patternProperties");
    SameParts(env, s, t);
    var patterns := GetObject(s, "patternProperties");
    SamePatterns(env, s, t, patterns, SortedKeys(patterns.Keys), name);
  }

  lemma RemovedStep(env: Env, o: Json, u: Json, names: seq<string>)
    requires names != [] && forall k <- names :: k in Properties(o)
    ensures RemovedProperties(env, o, u, names) ==
            (if names[0] in Properties(u) then [] else PropertyRemoved(env, o, u, names[0]))
              + RemovedProperties(env, o, u, names[1..])
  {
    hide Part, Properties, PropertyRemoved, AllInner;
  }

  lemma {:induction false} SameRemoved(env: Env, o: Json, u: Json, p: Json, v: Json, names: seq<string>)
    requires Agree(o, p) && Agree(u, v) && Properties(o) == Properties(p) && Properties(u) == Properties(v)
    requires forall k <- names :: k in Properties(o)
    ensures RemovedProperties(env, o, u, names) == RemovedProperties(env, p, v, names)
  {
    if names != [] {
      hide Part, Properties, Agree, PropertyRemoved, AllInner, RemovedProperties;
      RemovedStep(env, o, u, names);
      RemovedStep(env, p, v, names);
      if names[0] !in Properties(u) { SameRemoval(env, o, u, p, v, names[0]); }
      SameRemoved(env, o, u, p, v, names[1..]);
    }
  }

  lemma SameRemoval(env: Env, o: Json, u: Json, p: Json, v: Json, name: string)
    requires Agree(u, v) && Properties(o) == Properties(p) && name in Properties(o)
    ensures PropertyRemoved(env, o, u, name) == PropertyRemoved(env, p, v, name)
  {
    hide Part, Properties, Agree, Covering, ModelOf;
    SameParts(env, u, v);
    SameCovering(env, u, v, name);
  }

  lemma SameAddition(env: Env, o: Json, u: Json, p: Json, v: Json, name: string)
    requires Agree(o, p) && Agree(u, v) && Properties(u) == Properties(v) && name in Properties(u)
    ensures PropertyAdded(env, o, u, name) == PropertyAdded(env, p, v, name)
  {
    hide Part, Properties, Agree, Covering, ModelOf, RequiredSet;
    SameParts(env, u, v);
    SameParts(env, o, p);
    SameCovering(env, o, p, name);
  }

  lemma UpdatedStep(env: Env, o: Json, u: Json, names: seq<string>)
    requires names != [] && forall k <- names :: k in Properties(u)
    ensures UpdatedProperties(env, o, u, names) ==
            (if names[0] in Properties(o) then [Descend(Properties(o)[names[0]], Properties(u)[names[0]])]
             else PropertyAdded(env, o, u, names[0])) + UpdatedProperties(env, o, u, names[1..])
  {
    hide Part, Properties, PropertyAdded, AllInner;
  }

  lemma {:induction false} SameUpdated(env: Env, o: Json, u: Json, p: Json, v: Json, names: seq<string>)
    requires Agree(o, p) && Agree(u, v) && Properties(o) == Properties(p) && Properties(u) == Properties(v)
    requires forall k <- names :: k in Properties(u)
    ensures UpdatedProperties(env, o, u, names) == UpdatedProperties(env, p, v, names)
  {
    if names != [] {
      hide Part, Properties, Agree, PropertyAdded, AllInner, UpdatedProperties;
      UpdatedStep(env, o, u, names);
      UpdatedStep(env, p, v, names);
      if names[0] !in Properties(o) { SameAddition(env, o, u, p, v, names[0]); }
      SameUpdated(env, o, u, p, v, names[1..]);
    }
  }

  lemma {:induction false} SameRequired(o: Json, u: Json, p: Json, v: Json, names: seq<string>)
    requires Properties(o) == Properties(p) && Properties(u) == Properties(v)
    ensures NewlyRequired(o, u, names) == NewlyRequired(p, v, names)
  {
    hide Part, Properties;
    if names != [] { SameRequired(o, u, p, v, names[1..]); }
  }

  lemma SameObject(env: Env, o: Json, u: Json, p: Json, v: Json)
    requires Agree(o, p) && Agree(u, v)
    ensures CompareObject(env, o, u) == CompareObject(env, p, v)
  {
    hide Part, Properties, RequiredSet, Get, RemovedProperties, UpdatedProperties, NewlyRequired;
    SameParts(env, o, p);
    SameParts(env, u, v);
    SameRemoved(env, o, u, p, v, SortedKeys(Properties(o).Keys));
    SameUpdated(env, o, u, p, v, SortedKeys(Properties(u).Keys));
    SameRequired(o, u, p, v, SortedKeys(RequiredSet(u) - RequiredSet(o)));
    assert "additionalProperties" in COMPARED;
  }

  // ------------------------------------------------------------------
  // Dependencies, conditionals, combinators
  // ------------------------------------------------------------------

  lemma {:induction false} SameOldDependencies(o: Json, u: Json, p: Json, v: Json, names: seq<string>)
    requires GetObject(o, "dependencies") == GetObject(p, "dependencies")
    requires GetObject(u, "dependencies") == GetObject(v, "dependencies")
    requires forall k <- names :: k in GetObject(o, "dependencies")
    ensures OldDependencies(o, u, names) == OldDependencies(p, v, names)
  {
    hide Part, GetObject, CompareDependency;
    if names != [] { SameOldDependencies(o, u, p, v, names[1..]); }
  }

  lemma {:induction false} SameNewDependencies(o: Json, u: Json, p: Json, v: Json, names: seq<string>)
    requires GetObject(o, "dependencies") == GetObject(p, "dependencies")
    requires GetObject(u, "dependencies") == GetObject(v, "dependencies")
    requires forall k <- names :: k in GetObject(u, "dependencies")
    ensures NewDependencies(o, u, names) == NewDependencies(p, v, names)
  {
    hide Part, GetObject;
    if names != [] { SameNewDependencies(o, u, p, v, names[1..]); }
  }

  lemma SameTrailing(env: Env, o: Json, u: Json, p: Json, v: Json)
    requires Agree(o, p) && Agree(u, v)
    ensures Trailing(env, o, u) == Trailing(env, p, v)
  {
    hide Part, Get, GetObject, OldDependencies, NewDependencies;
    assert {"dependencies", "if", "then", "else"} <= COMPARED;
    SameReads(o, p, "dependencies");
    SameReads(u, v, "dependencies");
    SameOldDependencies(o, u, p, v, SortedKeys(GetObject(o, "dependencies").Keys));
    SameNewDependencies(o, u, p, v, SortedKeys(GetObject(u, "dependencies").Keys));
  }

  lemma SameLeading(env: Env, o: Json, u: Json, p: Json, v: Json)
    requires Agree(o, p) && Agree(u, v)
    ensures Leading(env, o, u) == Leading(env, p, v)
  {
    hide Part, Agree, TypesOf, EnumSet, CompareObject, CompareNumeric, CompareString, CompareArray, CompareSize;
    SameParts(env, o, p);
    SameParts(env, u, v);
    SameObject(env, o, u, p, v);
    SameNumeric(o, u, p, v);
    SameString(o, u, p, v);
    SameSize(o, u, p, v);
    SameArray(env, o, u, p, v);
    assert CompareType(o, u) == CompareType(p, v) && CompareEnum(env, o, u) == CompareEnum(env, p, v);
  }

  // The verdicts that involve a whole schema agree.
  ghost predicate SameVerdicts(ok: Verdict, o: Json, u: Json, p: Json, v: Json) {
    (forall x :: ok(o, x) == ok(p, x)) && forall x :: ok(x, u) == ok(x, v)
  }

  lemma {:induction false} SameAnyReads(ok: Verdict, o: Json, p: Json, us: seq<Json>)
    requires forall x :: ok(o, x) == ok(p, x)
    ensures AnyReads(ok, o, us) == AnyReads(ok, p, us)
  {
    if us != [] { SameAnyReads(ok, o, p, us[1..]); }
  }

  lemma {:induction false} SameAllRead(ok: Verdict, os: seq<Json>, u: Json, v: Json)
    requires forall x :: ok(x, u) == ok(x, v)
    ensures AllRead(ok, os, u) == AllRead(ok, os, v)
  {
    if os != [] { SameAllRead(ok, os[1..], u, v); }
  }

  lemma SameSum(ok: Verdict, o: Json, u: Json, p: Json, v: Json)
    requires SumOf(o) == SumOf(p) && SumOf(u) == SumOf(v) && SameVerdicts(ok, o, u, p, v)
    ensures CompareSum(ok, o, u) == CompareSum(ok, p, v)
  {
    hide Part, SumOf, CompareBranches;
    match (SumOf(o), SumOf(u))
    case (None, Some(now)) => SameAnyReads(ok, o, p, now.branches);
    case (Some(was), None) => SameAllRead(ok, was.branches, u, v);
    case _ =>
  }

  lemma SameCombinators(env: Env, ok: Verdict, o: Json, u: Json, p: Json, v: Json)
    requires Agree(o, p) && Agree(u, v) && SameVerdicts(ok, o, u, p, v)
    ensures CompareCombinators(ok, o, u) == CompareCombinators(ok, p, v)
  {
    hide Part, SumOf, Agree, CompareBranches, SameVerdicts, CompareSum, TypesOf, RequiredSet, Properties, ModelOf,
         EnumSet, IsUnique, RefOf, Get, GetArray;
    SameParts(env, o, p);
    SameParts(env, u, v);
    SameLists(o, p);
    SameLists(u, v);
    SameSum(ok, o, u, p, v);
  }

  lemma SameLists(s: Json, t: Json)
    requires Agree(s, t)
    ensures GetArray(s, "allOf") == GetArray(t, "allOf") && Get(s, "not") == Get(t, "not")
  {
    hide Part;
    assert "allOf" in COMPARED && "not" in COMPARED;
    SameReads(s, t, "allOf");
  }

  // The same for a pair without references, given it for the branches.
  lemma SamePlain(env: Env, fuel: nat, c: Context, o: Json, u: Json, p: Json, v: Json)
    requires fuel > 0 && Agree(o, p) && Agree(u, v) && RefOf(o).None? && RefOf(u).None?
    requires SameVerdicts((a, b) => Compatible(env, fuel - 1, JsonCompare.Fresh(c), a, b), o, u, p, v)
    ensures Compare(env, fuel, c, o, u) == Compare(env, fuel, c, p, v)
  {
    hide Part, Agree, RefOf, Leading, Trailing, CompareCombinators, Run, TypesOf, RequiredSet, Properties,
         ModelOf, EnumSet, IsUnique, SumOf, SameVerdicts;
    SameParts(env, o, p);
    SameParts(env, u, v);
    SameLeading(env, o, u, p, v);
    SameTrailing(env, o, u, p, v);
    SameCombinators(env, (a, b) => Compatible(env, fuel - 1, JsonCompare.Fresh(c), a, b), o, u, p, v);
  }

  lemma SameReferences(env: Env, c: Context, o: Json, u: Json, p: Json, v: Json)
    requires Agree(o, p) && Agree(u, v)
    ensures RefOf(o) == RefOf(p) && RefOf(u) == RefOf(v) && GuardKey(o, u) == GuardKey(p, v)
    ensures Resolved(c.orig, p) == Resolved(c.orig, o) && Resolved(c.upd, v) == Resolved(c.upd, u)
  {
    hide Part, Agree, RefOf, ResolveText, TypesOf, RequiredSet, Properties, ModelOf, EnumSet, IsUnique, SumOf;
    SameParts(env, o, p);
    SameParts(env, u, v);
  }

  // One step of a pair with references.
  lemma Steps(env: Env, fuel: nat, c: Context, o: Json, u: Json)
    requires fuel > 0 && (RefOf(o).Some? || RefOf(u).Some?)
    ensures Compare(env, fuel, c, o, u) ==
            if GuardKey(o, u) in c.visited then Some([])
            else match Followed(c, o, u)
              case Some((x, y)) => Compare(env, fuel - 1, Guarding(c, o, u), x, y)
              case None => Some([])
  {
    hide Part, RefOf, Leading, Trailing, CompareCombinators, Run, Followed, GuardKey;
  }

  lemma {:induction false} SameTargets(env: Env, fuel: nat, c: Context, o: Json, u: Json, p: Json, v: Json)
    requires fuel > 0 && Agree(o, p) && Agree(u, v) && (RefOf(o).Some? || RefOf(u).Some?)
    ensures Compare(env, fuel, c, o, u) == Compare(env, fuel, c, p, v)
    decreases fuel, 0
  {
    hide Part, Agree, RefOf, Compare, Resolved, GuardKey;
    SameReferences(env, c, o, u, p, v);
    Steps(env, fuel, c, o, u);
    Steps(env, fuel, c, p, v);
    var d := Guarding(c, o, u);
    match (Resolved(c.orig, o), Resolved(c.upd, u))
    case (Some(x), None) =>
      AgreeSelf(x);
      OnlyComparedMatter(env, fuel - 1, d, x, u, x, v);
    case (None, Some(y)) =>
      AgreeSelf(y);
      OnlyComparedMatter(env, fuel - 1, d, o, y, p, y);
    case _ =>
  }

  /** Schemas with the same compared keywords are compared alike: the comparison is blind to every other
      keyword, `contains`, `propertyNames` and `default` among them. */
  lemma {:induction false} OnlyComparedMatter(env: Env, fuel: nat, c: Context, o: Json, u: Json, p: Json, v: Json)
    requires Agree(o, p) && Agree(u, v)
    ensures Compare(env, fuel, c, o, u) == Compare(env, fuel, c, p, v)
    decreases fuel, 1
  {
    hide Part, Agree, RefOf, Compare;
    if fuel == 0 {
      NoFuel(env, c, o, u);
      NoFuel(env, c, p, v);
    } else if RefOf(o).None? && RefOf(u).None? {
      var ok: Verdict := (a, b) => Compatible(env, fuel - 1, JsonCompare.Fresh(c), a, b);
      forall x ensures ok(o, x) == ok(p, x) {
        AgreeSelf(x);
        OnlyComparedMatter(env, fuel - 1, JsonCompare.Fresh(c), o, x, p, x);
      }
      forall x ensures ok(x, u) == ok(x, v) {
        AgreeSelf(x);
        OnlyComparedMatter(env, fuel - 1, JsonCompare.Fresh(c), x, u, x, v);
      }
      SamePlain(env, fuel, c, o, u, p, v);
    } else {
      SameTargets(env, fuel, c, o, u, p, v);
    }
  }

  lemma NoFuel(env: Env, c: Context, o: Json, u: Json)
    ensures Compare(env, 0, c, o, u) == None
  {}

  lemma AgreeSelf(s: Json)
    ensures Agree(s, s)
  {}
}

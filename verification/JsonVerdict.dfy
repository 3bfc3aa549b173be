/** Exactly when a comparison is positive: every keyword in closed form, over the verdicts of subschemas. */
module JsonVerdict {
  import opened Wrappers
  import opened Canonical
  import opened JsonKinds
  import opened JsonDiff
  import opened JsonCompare
  import opened JsonMeaning
  import opened JsonSoundness
  import opened JsonExact

  // ------------------------------------------------------------------
  // Lists of items
  // ------------------------------------------------------------------

  /** Whether the second of two subschemas reads what the first accepts. */
  type Judge = (Json, Json) -> bool

  ghost predicate FineItem(ok: Judge, item: Item) {
    match item case Report(k) => IsBackwardCompatible(k) case Descend(a, b) => ok(a, b)
  }

  ghost predicate Fine(ok: Judge, items: Items) { forall item <- items :: FineItem(ok, item) }

  lemma FineConcat(ok: Judge, a: Items, b: Items)
    ensures Fine(ok, a + b) <==> Fine(ok, a) && Fine(ok, b)
  {
    assert (forall x <- a :: x in a + b) && forall x <- b :: x in a + b;
  }

  lemma FineOne(ok: Judge, item: Item)
    ensures Fine(ok, [item]) <==> FineItem(ok, item)
    ensures Fine(ok, [])
  {
    assert [item][0] in [item];
  }

  lemma FineReports(ok: Judge, items: Items)
    requires OnlyReports(items)
    ensures Fine(ok, items) <==> Harmless(items)
  {}

  // ------------------------------------------------------------------
  // Properties
  // ------------------------------------------------------------------

  /** A schema that speaks of a property that `properties` does not declare: additionalProperties, or a
      pattern that the name matches. */
  ghost predicate Governs(env: Env, s: Json, name: string, x: Json) {
    || ModelOf(s) == Governed(x)
    || exists p <- GetObject(s, "patternProperties") ::
         env.matches(p, name) && GetObject(s, "patternProperties")[p] == x
  }

  lemma {:induction false} MatchingAre(env: Env, s: Json, patterns: map<string, Json>, keys: seq<string>, name: string)
    requires (forall k <- keys :: k in patterns) && forall k <- patterns :: Part(patterns[k], s)
    ensures forall x :: x in MatchingPatterns(env, s, patterns, keys, name) <==>
              exists p <- keys :: env.matches(p, name) && patterns[p] == x
  {
    hide Part;
    if keys != [] {
      assert keys == [keys[0]] + keys[1..];
      MatchingAre(env, s, patterns, keys[1..], name);
    }
  }

  lemma CoveringAre(env: Env, s: Json, name: string)
    ensures forall x :: x in Covering(env, s, name) <==> Governs(env, s, name, x)
  {
    hide Part, ModelOf;
    var patterns := GetObject(s, "patternProperties");
    MatchingAre(env, s, patterns, SortedKeys(patterns.Keys), name);
  }

  /** A property may go when the new schema is open, or when something governs it that reads the old values. */
  ghost predicate MayGo(env: Env, ok: Judge, o: Json, u: Json, name: string)
    requires name in Properties(o)
  {
    match ModelOf(u)
    case Open => true
    case Closed => false
    case _ =>
      && (exists x :: Governs(env, u, name, x))
      && forall x :: Governs(env, u, name, x) ==> ok(Properties(o)[name], x)
  }

  /** A property may come when it is not required without a default, and when the old schema allowed no such
      property, when the property says nothing, or when it reads what governed it before. */
  ghost predicate MayCome(env: Env, ok: Judge, o: Json, u: Json, name: string)
    requires name in Properties(u)
  {
    var schema, required := Properties(u)[name], name in RequiredSet(u);
    var default := Get(schema, "default").Some?;
    || (required && default && !ModelOf(o).Open?)
    || (&& (required ==> default)
        && match ModelOf(o)
           case Open => schema == Obj(map[])
           case Closed => true
           case _ => forall x :: Governs(env, o, name, x) ==> ok(x, schema))
  }

  lemma OneByEachFine(ok: Judge, o: Json, us: seq<Json>)
    ensures Fine(ok, OneByEach(o, us)) <==> forall x <- us :: ok(o, x)
  {
    var items := OneByEach(o, us);
    if Fine(ok, items) {
      forall x <- us ensures ok(o, x) {
        var i :| 0 <= i < |us| && us[i] == x;
        assert items[i] in items;
      }
    }
  }

  lemma EachByOneFine(ok: Judge, os: seq<Json>, u: Json)
    ensures Fine(ok, EachByOne(os, u)) <==> forall x <- os :: ok(x, u)
  {
    var items := EachByOne(os, u);
    if Fine(ok, items) {
      forall x <- os ensures ok(x, u) {
        var i :| 0 <= i < |os| && os[i] == x;
        assert items[i] in items;
      }
    }
  }

  lemma RemovalIff(env: Env, ok: Judge, o: Json, u: Json, name: string)
    requires name in Properties(o)
    ensures Fine(ok, PropertyRemoved(env, o, u, name)) <==> MayGo(env, ok, o, u, name)
  {
    hide Part, ModelOf, Covering, Fine, Properties, Governs, OneByEach;
    var schema, covering := Properties(o)[name], Covering(env, u, name);
    CoveringAre(env, u, name);
    FineOne(ok, Report(PropertyRemovedFromOpen));
    FineOne(ok, Report(PropertyRemovedFromClosed));
    FineOne(ok, Report(PropertyRemovedNotCovered));
    FineOne(ok, Report(PropertyRemovedCovered));
    FineConcat(ok, [Report(PropertyRemovedCovered)], OneByEach(schema, covering));
    OneByEachFine(ok, schema, covering);
    if covering != [] { assert covering[0] in covering; }
  }

  lemma AddedToIff(env: Env, ok: Judge, o: Json, schema: Json, name: string)
    ensures Fine(ok, AddedTo(env, o, schema, name)) <==>
              match ModelOf(o)
              case Open => schema == Obj(map[])
              case Closed => true
              case _ => forall x :: Governs(env, o, name, x) ==> ok(x, schema)
  {
    hide Part, ModelOf, Covering, Fine, Governs, EachByOne;
    var covering := Covering(env, o, name);
    CoveringAre(env, o, name);
    FineOne(ok, Report(EmptyPropertyAddedToOpen));
    FineOne(ok, Report(PropertyAddedToOpen));
    FineOne(ok, Report(PropertyAddedToClosed));
    FineOne(ok, Report(PropertyAddedNotCovered));
    FineOne(ok, Report(PropertyAddedCovered));
    FineConcat(ok, [Report(PropertyAddedCovered)], EachByOne(covering, schema));
    EachByOneFine(ok, covering, schema);
  }

  lemma AdditionIff(env: Env, ok: Judge, o: Json, u: Json, name: string)
    requires name in Properties(u)
    ensures Fine(ok, PropertyAdded(env, o, u, name)) <==> MayCome(env, ok, o, u, name)
  {
    hide Part, ModelOf, AddedTo, Fine, Properties, Governs, RequiredSet, Get;
    var schema := Properties(u)[name];
    var missing: Items := if name in RequiredSet(u) && Get(schema, "default").None? then [Report(RequiredAdded)]
                          else [];
    FineOne(ok, Report(RequiredWithDefaultAddedToClosed));
    FineOne(ok, Report(RequiredAdded));
    AddedToIff(env, ok, o, schema, name);
    FineConcat(ok, missing, AddedTo(env, o, schema, name));
  }

  lemma {:induction false} RemovedIff(env: Env, ok: Judge, o: Json, u: Json, names: seq<string>)
    requires forall k <- names :: k in Properties(o)
    ensures Fine(ok, RemovedProperties(env, o, u, names)) <==>
              forall k <- names :: k in Properties(u) || MayGo(env, ok, o, u, k)
  {
    hide Part, Fine, Properties, PropertyRemoved, MayGo;
    if names == [] {
      FineOne(ok, Report(TypeChanged));
    } else {
      assert names == [names[0]] + names[1..];
      RemovedIff(env, ok, o, u, names[1..]);
      FineOne(ok, Report(TypeChanged));
      RemovalIff(env, ok, o, u, names[0]);
      FineConcat(ok, if names[0] in Properties(u) then [] else PropertyRemoved(env, o, u, names[0]),
        RemovedProperties(env, o, u, names[1..]));
    }
  }

  lemma {:induction false} UpdatedIff(env: Env, ok: Judge, o: Json, u: Json, names: seq<string>)
    requires forall k <- names :: k in Properties(u)
    ensures Fine(ok, UpdatedProperties(env, o, u, names)) <==>
              forall k <- names :: if k in Properties(o) then ok(Properties(o)[k], Properties(u)[k])
                                   else MayCome(env, ok, o, u, k)
  {
    hide Part, Fine, Properties, PropertyAdded, MayCome;
    if names == [] {
      FineOne(ok, Report(TypeChanged));
    } else {
      var k := names[0];
      assert names == [k] + names[1..];
      UpdatedIff(env, ok, o, u, names[1..]);
      if k in Properties(o) { FineOne(ok, Descend(Properties(o)[k], Properties(u)[k])); }
      AdditionIff(env, ok, o, u, k);
      FineConcat(ok, if k in Properties(o) then [Descend(Properties(o)[k], Properties(u)[k])]
        else PropertyAdded(env, o, u, k), UpdatedProperties(env, o, u, names[1..]));
    }
  }

  /** What both declare is read; what only the old declares may go; what only the new declares may come. */
  ghost predicate PropertiesRead(env: Env, ok: Judge, o: Json, u: Json) {
    && (forall k <- Properties(o) :: k in Properties(u) || MayGo(env, ok, o, u, k))
    && forall k <- Properties(u) :: if k in Properties(o) then ok(Properties(o)[k], Properties(u)[k])
                                    else MayCome(env, ok, o, u, k)
  }

  lemma PropertiesIff(env: Env, ok: Judge, o: Json, u: Json)
    ensures Fine(ok, CompareProperties(env, o, u)) <==> PropertiesRead(env, ok, o, u)
  {
    hide Part, Fine, Properties, RemovedProperties, UpdatedProperties, MayGo, MayCome;
    var before, after := SortedKeys(Properties(o).Keys), SortedKeys(Properties(u).Keys);
    RemovedIff(env, ok, o, u, before);
    UpdatedIff(env, ok, o, u, after);
    FineConcat(ok, RemovedProperties(env, o, u, before), UpdatedProperties(env, o, u, after));
  }

  // ------------------------------------------------------------------
  // required, additionalProperties, additionalItems
  // ------------------------------------------------------------------

  /** A new requirement on a property that both declare needs a default. */
  ghost predicate RequirementsExcused(o: Json, u: Json) {
    forall k <- RequiredSet(u) :: k in RequiredSet(o) || k !in Properties(o) || k !in Properties(u)
      || Get(Properties(u)[k], "default").Some?
  }

  lemma {:induction false} NewlyRequiredFine(ok: Judge, o: Json, u: Json, names: seq<string>)
    ensures Fine(ok, NewlyRequired(o, u, names)) <==>
              forall k <- names :: k !in Properties(o) || k !in Properties(u) || Get(Properties(u)[k], "default").Some?
  {
    hide Part, Fine, Properties, Get;
    FineOne(ok, Report(RequiredWithDefaultAdded));
    FineOne(ok, Report(RequiredAdded));
    if names != [] {
      assert names == [names[0]] + names[1..];
      NewlyRequiredFine(ok, o, u, names[1..]);
      var k := names[0];
      FineConcat(ok,
        if k in Properties(o) && k in Properties(u)
        then [Report(if Get(Properties(u)[k], "default").Some? then RequiredWithDefaultAdded else RequiredAdded)]
        else [],
        NewlyRequired(o, u, names[1..]));
    }
  }

  lemma RequiredIff(ok: Judge, o: Json, u: Json)
    ensures Fine(ok, CompareRequired(o, u)) <==> RequirementsExcused(o, u)
  {
    hide Part, Properties, Get, NewlyRequired, RequiredSet;
    var before, after := RequiredSet(o), RequiredSet(u);
    var gone: Items := seq(|SortedKeys(before - after)|, _ => Report(RequiredRemoved));
    NewlyRequiredFine(ok, o, u, SortedKeys(after - before));
    FineConcat(ok, NewlyRequired(o, u, SortedKeys(after - before)), gone);
  }

  /** A keyword for everything that is not listed: it may not become false, a schema may not come where there
      was nothing, and of two schemas the new one reads the old. */
  ghost predicate RestRead(ok: Judge, o: Json, u: Json, key: string) {
    var was, now := Get(o, key), Get(u, key);
    && (IsFalse(now) ==> IsFalse(was))
    && (NotBoolean(now) ==> was.Some?)
    && (NotBoolean(was) && NotBoolean(now) ==> ok(was.value, now.value))
  }

  lemma AdditionalPropertiesIff(ok: Judge, o: Json, u: Json)
    ensures Fine(ok, CompareAdditionalProperties(o, u)) <==> RestRead(ok, o, u, "additionalProperties")
  {
    hide Part, Fine, Get;
    var was, now := Get(o, "additionalProperties"), Get(u, "additionalProperties");
    FineOne(ok, Report(AdditionalPropertiesAdded));
    FineOne(ok, Report(AdditionalPropertiesRemoved));
    FineOne(ok, Report(AdditionalPropertiesNarrowed));
    FineOne(ok, Report(AdditionalPropertiesExtended));
    if was.Some? && now.Some? { FineOne(ok, Descend(was.value, now.value)); }
  }

  lemma AdditionalItemsIff(ok: Judge, o: Json, u: Json)
    ensures Fine(ok, CompareAdditionalItems(o, u)) <==> RestRead(ok, o, u, "additionalItems")
  {
    hide Part, Fine, Get;
    var was, now := Get(o, "additionalItems"), Get(u, "additionalItems");
    FineOne(ok, Report(AdditionalItemsAdded));
    FineOne(ok, Report(AdditionalItemsRemoved));
    FineOne(ok, Report(AdditionalItemsNarrowed));
    FineOne(ok, Report(AdditionalItemsExtended));
    if was.Some? && now.Some? { FineOne(ok, Descend(was.value, now.value)); }
  }

  // ------------------------------------------------------------------
  // items
  // ------------------------------------------------------------------

  /** A tuple may get shorter, never longer; each remaining place reads the old one. */
  ghost predicate TupleRead(ok: Judge, was: seq<Json>, now: seq<Json>) {
    |now| <= |was| && forall n :: 0 <= n < |now| ==> ok(was[n], now[n])
  }

  /** Items may come and go; where both have them, two schemas or two tuples are compared and anything else,
      two booleans among it, is refused. */
  ghost predicate ItemsRead(ok: Judge, o: Json, u: Json) {
    match (Get(o, "items"), Get(u, "items"))
    case (Some(Obj(a)), Some(Obj(b))) => ok(Obj(a), Obj(b))
    case (Some(Arr(a)), Some(Arr(b))) => TupleRead(ok, a, b)
    case (Some(_), Some(_)) => false
    case _ => true
  }

  lemma TuplesIff(ok: Judge, was: seq<Json>, now: seq<Json>)
    ensures Fine(ok, CompareTuples(was, now)) <==> TupleRead(ok, was, now)
  {
    var n := Shorter(|was|, |now|);
    var each := DescendAll(was[..n], now[..n]);
    FineOne(ok, Report(AdditionalItemsRemoved));
    FineOne(ok, Report(AdditionalItemsAdded));
    FineConcat(ok, each, if |now| > |was| then [Report(AdditionalItemsRemoved)]
      else if |was| > |now| then [Report(AdditionalItemsAdded)] else []);
    if Fine(ok, each) {
      forall i | 0 <= i < n ensures ok(was[i], now[i]) { assert each[i] in each && FineItem(ok, each[i]); }
    }
    hide Fine;
  }

  lemma ItemsIff(ok: Judge, o: Json, u: Json)
    ensures Fine(ok, CompareItems(o, u)) <==> ItemsRead(ok, o, u)
  {
    hide Part, Fine, TupleRead, CompareTuples;
    FineOne(ok, Report(TypeChanged));
    match (Get(o, "items"), Get(u, "items"))
    case (Some(Obj(a)), Some(Obj(b))) => FineOne(ok, Descend(Obj(a), Obj(b)));
    case (Some(Arr(a)), Some(Arr(b))) => TuplesIff(ok, a, b);
    case _ =>
  }

  // ------------------------------------------------------------------
  // dependencies, if, then, else
  // ------------------------------------------------------------------

  /** A list of names may shrink, a schema reads the old one, anything else stays as it is. */
  ghost predicate DependencyRead(ok: Judge, v: Json, w: Json) {
    match (v, w)
    case (Arr(a), Arr(b)) => Strings(b) <= Strings(a)
    case (Obj(_), Obj(_)) => ok(v, w)
    case _ => v == w
  }

  /** No dependency may come. */
  ghost predicate DependenciesRead(ok: Judge, o: Json, u: Json) {
    var was, now := GetObject(o, "dependencies"), GetObject(u, "dependencies");
    forall k <- now :: k in was && DependencyRead(ok, was[k], now[k])
  }

  lemma DependencyIff(ok: Judge, v: Json, w: Json)
    ensures Fine(ok, CompareDependency(v, w)) <==> DependencyRead(ok, v, w)
  {
    hide Fine, Strings;
    FineOne(ok, Report(DependencyArrayExtended));
    FineOne(ok, Report(DependencyArrayNarrowed));
    FineOne(ok, Report(DependencyArrayChanged));
    FineOne(ok, Descend(v, w));
    if v.Arr? && w.Arr? { SetsEqual(Strings(v.items), Strings(w.items)); }
  }

  lemma SetsEqual(a: set<string>, b: set<string>)
    ensures a <= b && b <= a <==> a == b
  {}

  lemma {:induction false} OldDependenciesIff(ok: Judge, o: Json, u: Json, names: seq<string>)
    requires forall k <- names :: k in GetObject(o, "dependencies")
    ensures Fine(ok, OldDependencies(o, u, names)) <==>
              forall k <- names :: k in GetObject(u, "dependencies") ==>
                DependencyRead(ok, GetObject(o, "dependencies")[k], GetObject(u, "dependencies")[k])
  {
    hide Part, Fine, GetObject, DependencyRead, CompareDependency;
    var was, now := GetObject(o, "dependencies"), GetObject(u, "dependencies");
    FineOne(ok, Report(TypeChanged));
    if names != [] {
      var k := names[0];
      assert names == [k] + names[1..];
      OldDependenciesIff(ok, o, u, names[1..]);
      var first := if k in now then CompareDependency(was[k], now[k]) else [Report(DependencyKind(was[k], false))];
      if k in now { DependencyIff(ok, was[k], now[k]); }
      FineOne(ok, Report(DependencyKind(was[k], false)));
      FineConcat(ok, first, OldDependencies(o, u, names[1..]));
    }
  }

  lemma {:induction false} NewDependenciesIff(ok: Judge, o: Json, u: Json, names: seq<string>)
    requires forall k <- names :: k in GetObject(u, "dependencies")
    ensures Fine(ok, NewDependencies(o, u, names)) <==> forall k <- names :: k in GetObject(o, "dependencies")
  {
    hide Part, Fine, GetObject;
    var was, now := GetObject(o, "dependencies"), GetObject(u, "dependencies");
    FineOne(ok, Report(TypeChanged));
    if names != [] {
      var k := names[0];
      assert names == [k] + names[1..];
      NewDependenciesIff(ok, o, u, names[1..]);
      FineOne(ok, Report(DependencyKind(now[k], true)));
      FineConcat(ok, if k in was then [] else [Report(DependencyKind(now[k], true))],
        NewDependencies(o, u, names[1..]));
    }
  }

  lemma DependenciesIff(ok: Judge, o: Json, u: Json)
    ensures Fine(ok, CompareDependencies(o, u)) <==> DependenciesRead(ok, o, u)
  {
    hide Part, Fine, GetObject, OldDependencies, NewDependencies, DependencyRead;
    var before, after := SortedKeys(GetObject(o, "dependencies").Keys), SortedKeys(GetObject(u, "dependencies").Keys);
    OldDependenciesIff(ok, o, u, before);
    NewDependenciesIff(ok, o, u, after);
    FineConcat(ok, OldDependencies(o, u, before), NewDependencies(o, u, after));
  }

  lemma ConditionalIff(env: Env, ok: Judge, o: Json, u: Json, key: string)
    requires PrintsNumbers(env.show)
    ensures Fine(ok, CompareConditional(env, o, u, key)) <==> Get(o, key) == Get(u, key)
  {
    hide Part, Fine, Get, Canonicalize;
    FineOne(ok, Report(ConditionalChanged));
    if Get(o, key).Some? && Get(u, key).Some? {
      var v, w := Get(o, key).value, Get(u, key).value;
      CanonicalIsIdentity(env.show, v, w);
      FineConcat(ok, [Report(ConditionalChanged)], [Descend(v, w)]);
      assert [Report(ConditionalChanged)] + [Descend(v, w)] == [Report(ConditionalChanged), Descend(v, w)];
    }
  }

  /** `if`, `then` and `else` stay as they are. */
  ghost predicate ConditionalsKept(o: Json, u: Json) {
    Get(o, "if") == Get(u, "if") && Get(o, "then") == Get(u, "then") && Get(o, "else") == Get(u, "else")
  }

  lemma ConditionalsIff(env: Env, ok: Judge, o: Json, u: Json)
    requires PrintsNumbers(env.show)
    ensures Fine(ok, CompareConditionals(env, o, u)) <==> ConditionalsKept(o, u)
  {
    hide Part, Fine, Get, CompareConditional;
    ConditionalIff(env, ok, o, u, "if");
    ConditionalIff(env, ok, o, u, "then");
    ConditionalIff(env, ok, o, u, "else");
    var a, b, c := CompareConditional(env, o, u, "if"), CompareConditional(env, o, u, "then"),
        CompareConditional(env, o, u, "else");
    FineConcat(ok, a + b, c);
    FineConcat(ok, a, b);
  }

  // ------------------------------------------------------------------
  // Combinators
  // ------------------------------------------------------------------

  /** Equal lists, or an injective pairing of compatible branches that covers the shorter one. */
  ghost predicate ListsRead(judge: Verdict, was: seq<Json>, now: seq<Json>) {
    was == now || (Judged(judge, was, now) && Paired(judge, was, now))
  }

  /** allOf may lose branches. */
  ghost predicate AllOfRead(judge: Verdict, o: Json, u: Json) {
    match (GetArray(o, "allOf"), GetArray(u, "allOf"))
    case (Some(was), Some(now)) => |now| <= |was| && ListsRead(judge, was, now)
    case (None, None) => true
    case _ => false
  }

  ghost predicate ReadsAt(judge: Verdict, o: Json, now: seq<Json>, i: int) {
    0 <= i < |now| && judge(o, now[i]) == Some(true) && forall x <- now[..i] :: judge(o, x) == Some(false)
  }

  // The first of the branches that does not refuse the schema reads it.
  ghost predicate SomeReads(judge: Verdict, o: Json, now: seq<Json>) {
    exists i :: ReadsAt(judge, o, now, i)
  }

  /** anyOf and oneOf may gain branches, oneOf may become anyOf, and a plain schema may become one of them when
      a branch reads it; they never become a plain schema. */
  ghost predicate SumRead(judge: Verdict, o: Json, u: Json) {
    match (SumOf(o), SumOf(u))
    case (Some(was), Some(now)) =>
      if was.any == now.any then |was.branches| <= |now.branches| && ListsRead(judge, was.branches, now.branches)
      else now.any
    case (None, Some(now)) => SomeReads(judge, o, now.branches)
    case (Some(_), None) => false
    case (None, None) => true
  }

  /** Of two negations the old one reads the new. */
  ghost predicate NotRead(judge: Verdict, o: Json, u: Json) {
    match (Get(o, "not"), Get(u, "not"))
    case (Some(was), Some(now)) => was == now || judge(now, was) == Some(true)
    case (None, None) => true
    case _ => false
  }

  ghost predicate Positive(kinds: Option<seq<Kind>>) { kinds.Some? && AllCompatible(kinds.value) }

  lemma PositiveOne(k: Kind)
    ensures Positive(Some([k])) <==> IsBackwardCompatible(k)
    ensures Positive(Some([]))
  {
    assert [k][0] in [k];
  }

  lemma BranchesIff(judge: Verdict, was: seq<Json>, now: seq<Json>, longer: Kind, shorter: Kind)
    ensures Positive(CompareBranches(judge, was, now, longer, shorter)) <==>
              && ListsRead(judge, was, now)
              && (was == now || |was| == |now| || IsBackwardCompatible(if |now| > |was| then longer else shorter))
  {
    hide Positive, Judged, Paired;
    NonePositive();
    PositiveOne(SubschemasChanged);
    PositiveOne(longer);
    PositiveOne(shorter);
  }

  lemma AllOfIff(judge: Verdict, o: Json, u: Json)
    ensures Positive(CompareAllOf(judge, o, u)) <==> AllOfRead(judge, o, u)
  {
    hide Part, Positive, CompareBranches, ListsRead;
    PositiveOne(CombinedTypeChanged);
    match (GetArray(o, "allOf"), GetArray(u, "allOf"))
    case (Some(was), Some(now)) => BranchesIff(judge, was, now, ProductTypeExtended, ProductTypeNarrowed);
    case _ =>
  }

  lemma ReadsLater(judge: Verdict, o: Json, now: seq<Json>, i: int)
    requires now != [] && judge(o, now[0]) == Some(false)
    ensures ReadsAt(judge, o, now, i + 1) <==> ReadsAt(judge, o, now[1..], i)
  {
    if 0 <= i < |now| - 1 { assert now[..i + 1] == [now[0]] + now[1..][..i]; }
    if i < 0 { assert !ReadsAt(judge, o, now, 0); }
  }

  lemma {:induction false} AnyReadsIff(judge: Verdict, o: Json, now: seq<Json>)
    ensures AnyReads(judge, o, now) == Some(true) <==> SomeReads(judge, o, now)
  {
    if now != [] {
      AnyReadsIff(judge, o, now[1..]);
      assert now[..0] == [];
      match judge(o, now[0])
      case Some(true) => assert ReadsAt(judge, o, now, 0);
      case Some(false) =>
        if SomeReads(judge, o, now[1..]) {
          var i :| ReadsAt(judge, o, now[1..], i);
          ReadsLater(judge, o, now, i);
        }
        if SomeReads(judge, o, now) {
          var i :| ReadsAt(judge, o, now, i);
          ReadsLater(judge, o, now, i - 1);
        }
      case None => RefusedFirst(judge, o, now);
    }
  }

  lemma RefusedFirst(judge: Verdict, o: Json, now: seq<Json>)
    requires now != [] && judge(o, now[0]).None?
    ensures !SomeReads(judge, o, now)
  {
    forall i ensures !ReadsAt(judge, o, now, i) {
      if 0 < i < |now| { assert now[..i][0] == now[0] && now[0] in now[..i]; }
    }
  }

  lemma SumIff(judge: Verdict, o: Json, u: Json)
    ensures Positive(CompareSum(judge, o, u)) <==> SumRead(judge, o, u)
  {
    hide Part, Positive, CompareBranches, ListsRead, SumOf, SomeReads, AnyReads, AllRead;
    PositiveOne(CombinedTypeExtended);
    PositiveOne(CombinedTypeChanged);
    PositiveOne(SumTypeExtended);
    PositiveOne(SumTypeNarrowed);
    match (SumOf(o), SumOf(u))
    case (Some(was), Some(now)) => BranchesIff(judge, was.branches, now.branches, SumTypeExtended, SumTypeNarrowed);
    case (None, Some(now)) =>
      AnyReadsIff(judge, o, now.branches);
      NonePositive();
    case (Some(_), None) => NonePositive();
    case (None, None) =>
  }

  lemma NonePositive()
    ensures !Positive(None)
  {}

  lemma NotIff(judge: Verdict, o: Json, u: Json)
    ensures Positive(CompareNot(judge, o, u)) <==> NotRead(judge, o, u)
  {
    hide Part, Positive, Get;
    PositiveOne(CombinedTypeChanged);
    PositiveOne(NotTypeNarrowed);
    PositiveOne(NotTypeExtended);
    NonePositive();
  }

  lemma PositiveConcat(a: Option<seq<Kind>>, b: Option<seq<Kind>>, c: Option<seq<Kind>>)
    ensures Positive(Concat3(a, b, c)) <==> Positive(a) && Positive(b) && Positive(c)
  {
    if a.Some? && b.Some? && c.Some? {
      var x, y, z := a.value, b.value, c.value;
      assert forall k :: k in x + y + z <==> k in x || k in y || k in z;
    }
  }

  ghost predicate BranchesRead(judge: Verdict, o: Json, u: Json) {
    AllOfRead(judge, o, u) && SumRead(judge, o, u) && NotRead(judge, o, u)
  }

  lemma CombinatorsIff(judge: Verdict, o: Json, u: Json)
    ensures Positive(CompareCombinators(judge, o, u)) <==> BranchesRead(judge, o, u)
  {
    hide Positive, CompareAllOf, CompareSum, CompareNot, AllOfRead, SumRead, NotRead;
    AllOfIff(judge, o, u);
    SumIff(judge, o, u);
    NotIff(judge, o, u);
    PositiveConcat(CompareAllOf(judge, o, u), CompareSum(judge, o, u), CompareNot(judge, o, u));
  }

  // ------------------------------------------------------------------
  // The verdict
  // ------------------------------------------------------------------

  ghost function JudgeOf(env: Env, fuel: nat, c: Context): Judge {
    (a, b) => JsonCompare.Compatible(env, fuel, c, a, b) == Some(true)
  }

  lemma {:induction false} RunIff(env: Env, fuel: nat, c: Context, items: Items)
    requires fuel > 0
    ensures Positive(Run(env, fuel, c, items)) <==> Fine(JudgeOf(env, fuel - 1, c), items)
  {
    hide Compare;
    var ok := JudgeOf(env, fuel - 1, c);
    if items != [] {
      var first := match items[0] case Report(k) => Some([k]) case Descend(a, b) => Compare(env, fuel - 1, c, a, b);
      assert items == [items[0]] + items[1..];
      RunIff(env, fuel, c, items[1..]);
      FineConcat(ok, [items[0]], items[1..]);
      FineOne(ok, items[0]);
      PositiveConcat(first, Run(env, fuel, c, items[1..]), Some([]));
      if items[0].Report? { PositiveOne(items[0].kind); }
      assert first.Some? && Run(env, fuel, c, items[1..]).Some? ==>
          first.value + Run(env, fuel, c, items[1..]).value + [] == first.value + Run(env, fuel, c, items[1..]).value;
    }
  }

  /** Types: none is demanded, or the old ones stay, or the single integer becomes the single number. */
  predicate TypesRead(o: Json, u: Json) {
    var was, now := TypesOf(o), TypesOf(u);
    now == {} || (was != {} && (was <= now || (was == {"integer"} && now == {"number"})))
  }

  /** Keywords without subschemas. */
  ghost predicate FlatRead(o: Json, u: Json) {
    && TypesRead(o, u) && EnumKept(o, u) && (forall b :: BoundImplied(o, u, b)) && MultipleImplied(o, u)
    && PatternKept(o, u) && UniqueImplied(o, u)
  }

  /** Keywords with subschemas, but for the combinators. */
  ghost predicate StructureRead(env: Env, ok: Judge, o: Json, u: Json) {
    && PropertiesRead(env, ok, o, u) && RequirementsExcused(o, u) && RestRead(ok, o, u, "additionalProperties")
    && ItemsRead(ok, o, u) && RestRead(ok, o, u, "additionalItems")
    && DependenciesRead(ok, o, u) && ConditionalsKept(o, u)
  }

  lemma TypesIff(o: Json, u: Json)
    ensures Harmless(CompareType(o, u)) <==> TypesRead(o, u)
  {
    hide TypesOf, Harmless;
    HarmlessOne(TypeExtended);
    HarmlessOne(TypeNarrowed);
    HarmlessOne(TypeChanged);
    SetsEqual(TypesOf(o), TypesOf(u));
  }

  lemma ObjectIff(env: Env, ok: Judge, o: Json, u: Json)
    ensures Fine(ok, CompareObject(env, o, u)) <==>
              && PropertiesRead(env, ok, o, u) && RequirementsExcused(o, u)
              && RestRead(ok, o, u, "additionalProperties")
  {
    hide Fine, CompareProperties, CompareRequired, CompareAdditionalProperties, PropertiesRead, RequirementsExcused;
    PropertiesIff(env, ok, o, u);
    RequiredIff(ok, o, u);
    AdditionalPropertiesIff(ok, o, u);
    FineConcat(ok, CompareProperties(env, o, u) + CompareRequired(o, u), CompareAdditionalProperties(o, u));
    FineConcat(ok, CompareProperties(env, o, u), CompareRequired(o, u));
  }

  lemma BoundFine(ok: Judge, o: Json, u: Json, b: Bound)
    ensures Fine(ok, CompareBound(o, u, b)) <==> BoundImplied(o, u, b)
  {
    FineReports(ok, CompareBound(o, u, b));
    BoundIff(o, u, b);
  }

  lemma ArrayIff(ok: Judge, o: Json, u: Json)
    ensures Fine(ok, CompareArray(o, u)) <==>
              && ItemsRead(ok, o, u) && BoundImplied(o, u, MaxItems) && BoundImplied(o, u, MinItems)
              && RestRead(ok, o, u, "additionalItems") && UniqueImplied(o, u)
  {
    hide Fine, CompareItems, CompareBound, CompareAdditionalItems, IsUnique, ItemsRead, BoundImplied, UniqueImplied;
    var a, b, c, d := CompareItems(o, u), CompareBound(o, u, MaxItems), CompareBound(o, u, MinItems),
        CompareAdditionalItems(o, u);
    var e: Items := if !IsUnique(o) && IsUnique(u) then [Report(UniqueItemsAdded)]
                    else if IsUnique(o) && !IsUnique(u) then [Report(UniqueItemsRemoved)] else [];
    ItemsIff(ok, o, u);
    BoundFine(ok, o, u, MaxItems);
    BoundFine(ok, o, u, MinItems);
    AdditionalItemsIff(ok, o, u);
    UniqueIff(o, u);
    FineOne(ok, Report(UniqueItemsAdded));
    FineOne(ok, Report(UniqueItemsRemoved));
    FineConcat(ok, a + b + c + d, e);
    FineConcat(ok, a + b + c, d);
    FineConcat(ok, a + b, c);
    FineConcat(ok, a, b);
  }

  lemma NumericIff(ok: Judge, o: Json, u: Json)
    ensures Fine(ok, CompareNumeric(o, u)) <==>
              && BoundImplied(o, u, Maximum) && BoundImplied(o, u, Minimum) && BoundImplied(o, u, ExclusiveMaximum)
              && BoundImplied(o, u, ExclusiveMinimum) && MultipleImplied(o, u)
  {
    hide Fine, CompareBound, CompareMultipleOf, BoundImplied, MultipleImplied;
    var a, b, f := CompareBound(o, u, Maximum), CompareBound(o, u, Minimum), CompareMultipleOf(o, u);
    var c, d := CompareBound(o, u, ExclusiveMaximum), CompareBound(o, u, ExclusiveMinimum);
    BoundFine(ok, o, u, Maximum);
    BoundFine(ok, o, u, Minimum);
    BoundFine(ok, o, u, ExclusiveMaximum);
    BoundFine(ok, o, u, ExclusiveMinimum);
    FineReports(ok, f);
    MultipleIff(o, u);
    FineConcat(ok, a + b + c + d, f);
    FineConcat(ok, a + b + c, d);
    FineConcat(ok, a + b, c);
    FineConcat(ok, a, b);
  }

  lemma TextIff(ok: Judge, o: Json, u: Json)
    ensures Fine(ok, CompareString(o, u) + CompareSize(o, u)) <==>
              && BoundImplied(o, u, MaxLength) && BoundImplied(o, u, MinLength) && PatternKept(o, u)
              && BoundImplied(o, u, MaxProperties) && BoundImplied(o, u, MinProperties)
  {
    hide Fine, CompareBound, ComparePattern, BoundImplied, PatternKept;
    var a, b, c := CompareBound(o, u, MaxLength), CompareBound(o, u, MinLength), ComparePattern(o, u);
    var d, e := CompareBound(o, u, MaxProperties), CompareBound(o, u, MinProperties);
    BoundFine(ok, o, u, MaxLength);
    BoundFine(ok, o, u, MinLength);
    BoundFine(ok, o, u, MaxProperties);
    BoundFine(ok, o, u, MinProperties);
    FineReports(ok, c);
    PatternIff(o, u);
    FineConcat(ok, a + b + c, d + e);
    FineConcat(ok, a + b, c);
    FineConcat(ok, a, b);
    FineConcat(ok, d, e);
  }

  // All ten.
  lemma EachBound(o: Json, u: Json)
    ensures (forall b :: BoundImplied(o, u, b)) <==>
              && BoundImplied(o, u, Maximum) && BoundImplied(o, u, Minimum) && BoundImplied(o, u, ExclusiveMaximum)
              && BoundImplied(o, u, ExclusiveMinimum) && BoundImplied(o, u, MaxLength)
              && BoundImplied(o, u, MinLength) && BoundImplied(o, u, MaxItems) && BoundImplied(o, u, MinItems)
              && BoundImplied(o, u, MaxProperties) && BoundImplied(o, u, MinProperties)
  {
    hide BoundImplied;
    forall b
      ensures BoundImplied(o, u, b)
           || !(&& BoundImplied(o, u, Maximum) && BoundImplied(o, u, Minimum) && BoundImplied(o, u, ExclusiveMaximum)
                && BoundImplied(o, u, ExclusiveMinimum) && BoundImplied(o, u, MaxLength)
                && BoundImplied(o, u, MinLength) && BoundImplied(o, u, MaxItems) && BoundImplied(o, u, MinItems)
                && BoundImplied(o, u, MaxProperties) && BoundImplied(o, u, MinProperties))
    {
      match b
      case Maximum =>
      case Minimum =>
      case ExclusiveMaximum =>
      case ExclusiveMinimum =>
      case MaxLength =>
      case MinLength =>
      case MaxItems =>
      case MinItems =>
      case MaxProperties =>
      case MinProperties =>
    }
  }

  lemma LeadingIff(env: Env, ok: Judge, o: Json, u: Json)
    requires PrintsNumbers(env.show)
    ensures Fine(ok, Leading(env, o, u)) <==>
              && FlatRead(o, u) && PropertiesRead(env, ok, o, u) && RequirementsExcused(o, u)
              && RestRead(ok, o, u, "additionalProperties") && ItemsRead(ok, o, u)
              && RestRead(ok, o, u, "additionalItems")
  {
    hide Fine, CompareType, CompareEnum, CompareObject, CompareNumeric, CompareString, CompareArray, CompareSize,
         TypesRead, EnumKept, BoundImplied, MultipleImplied, PatternKept, UniqueImplied, PropertiesRead,
         RequirementsExcused, RestRead, ItemsRead;
    TypesIff(o, u);
    FineReports(ok, CompareType(o, u));
    EnumIff(env, o, u);
    FineReports(ok, CompareEnum(env, o, u));
    ObjectIff(env, ok, o, u);
    NumericIff(ok, o, u);
    TextIff(ok, o, u);
    ArrayIff(ok, o, u);
    EachBound(o, u);
    var a, b, c := CompareType(o, u), CompareEnum(env, o, u), CompareObject(env, o, u);
    var d, e, f, g := CompareNumeric(o, u), CompareString(o, u), CompareArray(o, u), CompareSize(o, u);
    FineConcat(ok, a + b + c, d + e + f + g);
    FineConcat(ok, a + b, c);
    FineConcat(ok, a, b);
    FineConcat(ok, d + e + f, g);
    FineConcat(ok, d + e, f);
    FineConcat(ok, d, e);
    FineConcat(ok, e, g);
  }

  /** A comparison of schemas without references at their tops is positive exactly when each keyword reads, over
      the verdicts of the subschemas under the same guard and of the branches under an empty one. */
  lemma VerdictIff(env: Env, fuel: nat, c: Context, o: Json, u: Json)
    requires PrintsNumbers(env.show) && fuel > 0 && RefOf(o).None? && RefOf(u).None?
    ensures JsonCompare.Compatible(env, fuel, c, o, u) == Some(true) <==>
              && FlatRead(o, u) && StructureRead(env, JudgeOf(env, fuel - 1, c), o, u)
              && BranchesRead((a, b) => JsonCompare.Compatible(env, fuel - 1, JsonCompare.Fresh(c), a, b), o, u)
  {
    hide Leading, Trailing, CompareCombinators, Run, Fine, FlatRead, PropertiesRead, RequirementsExcused, RestRead,
         ItemsRead, DependenciesRead, ConditionalsKept, BranchesRead, RefOf, Positive, AllCompatible;
    var ok := JudgeOf(env, fuel - 1, c);
    var judge: Verdict := (a, b) => JsonCompare.Compatible(env, fuel - 1, JsonCompare.Fresh(c), a, b);
    LeadingIff(env, ok, o, u);
    TrailingIff(env, ok, o, u);
    CombinatorsIff(judge, o, u);
    RunIff(env, fuel, c, Leading(env, o, u));
    RunIff(env, fuel, c, Trailing(env, o, u));
    PositiveConcat(Run(env, fuel, c, Leading(env, o, u)), CompareCombinators(judge, o, u),
      Run(env, fuel, c, Trailing(env, o, u)));
    PositiveIs(env, fuel, c, o, u);
  }

  lemma TrailingIff(env: Env, ok: Judge, o: Json, u: Json)
    requires PrintsNumbers(env.show)
    ensures Fine(ok, Trailing(env, o, u)) <==> DependenciesRead(ok, o, u) && ConditionalsKept(o, u)
  {
    hide Fine, CompareDependencies, CompareConditionals, DependenciesRead, ConditionalsKept;
    DependenciesIff(ok, o, u);
    ConditionalsIff(env, ok, o, u);
    FineConcat(ok, CompareDependencies(o, u), CompareConditionals(env, o, u));
  }

  lemma PositiveIs(env: Env, fuel: nat, c: Context, o: Json, u: Json)
    ensures JsonCompare.Compatible(env, fuel, c, o, u) == Some(true) <==> Positive(Compare(env, fuel, c, o, u))
  {
    hide Compare;
  }

  // ------------------------------------------------------------------
  // Schemas without subschemas
  // ------------------------------------------------------------------

  const STRUCTURE: set<string> := {"$ref", "properties", "required", "additionalProperties", "patternProperties",
                                   "items", "additionalItems", "dependencies", "if", "then", "else", "allOf",
                                   "anyOf", "oneOf", "not"}

  /** No keyword with subschemas; type, enum and const, and the limits of counts, are as draft-07 wants them. */
  ghost predicate Plain(s: Json) {
    Absent(s, STRUCTURE) && TypesKnown(s) && EnumPlain(s) && forall b :: OnCounts(b) ==> WholeLimit(s, b)
  }

  /** Keyword by keyword, what meets the old schema meets the new. */
  ghost predicate KeywordsImplied(env: Env, o: Json, u: Json) {
    && TypeImplied(o, u) && EnumImplied(o, u) && MultipleImplied(o, u) && UniqueImplied(o, u)
    && (forall b, i :: BoundValid(o, b, i) ==> BoundValid(u, b, i))
    && forall i :: PatternValid(env, o, i) ==> PatternValid(env, u, i)
  }

  /** Where the code refuses an implied keyword: types or a lower bound of 0 where there were none, integers that
      become numbers beside other types, listed values that are only equal as numbers, and patterns that differ. */
  ghost predicate NothingRefused(o: Json, u: Json) {
    && TypesPlain(o, u) && EnumKept(o, u) && PatternKept(o, u)
    && forall b :: SaysNothing(u, b) && OnCounts(b) ==> GetNumber(o, Keyword(b)).Some?
  }

  lemma BoundsMean(o: Json, u: Json)
    requires Plain(o) && Plain(u)
    ensures (forall b :: BoundImplied(o, u, b)) <==>
              && (forall b, i :: BoundValid(o, b, i) ==> BoundValid(u, b, i))
              && forall b :: SaysNothing(u, b) && OnCounts(b) ==> GetNumber(o, Keyword(b)).Some?
  {
    hide BoundImplied, BoundValid, GetNumber, Keyword, WholeLimit, TypesKnown, EnumPlain, Absent;
    forall b
      ensures BoundImplied(o, u, b) <==>
                && (forall i :: BoundValid(o, b, i) ==> BoundValid(u, b, i))
                && (SaysNothing(u, b) && OnCounts(b) ==> GetNumber(o, Keyword(b)).Some?)
    {
      if OnNumbers(b) { NumberBoundIff(o, u, b); } else { CountMeans(o, u, b); }
    }
    if forall b :: BoundImplied(o, u, b) {
      forall b, i | BoundValid(o, b, i) ensures BoundValid(u, b, i) { assert BoundImplied(o, u, b); }
      forall b | SaysNothing(u, b) && OnCounts(b) ensures GetNumber(o, Keyword(b)).Some? {
        assert BoundImplied(o, u, b);
      }
    }
  }

  lemma CountMeans(o: Json, u: Json, b: Bound)
    requires OnCounts(b) && WholeLimit(o, b) && WholeLimit(u, b)
    ensures BoundImplied(o, u, b) <==>
              && (forall i :: BoundValid(o, b, i) ==> BoundValid(u, b, i))
              && (SaysNothing(u, b) ==> GetNumber(o, Keyword(b)).Some?)
  {
    hide BoundValid, Wider, WholeLimit;
    CountBoundIff(o, u, b);
  }

  lemma EnumReads(o: Json, u: Json)
    requires EnumPlain(o) && EnumPlain(u) && EnumKept(o, u)
    ensures EnumImplied(o, u)
  {
    hide Allowed, Same, EnumImplied;
    EnumImpliedIff(o, u);
    if Allowed(u).Some? {
      forall x <- Allowed(o).value ensures Listed(x, Allowed(u).value) { SameAsSelf(x); }
    }
  }

  lemma PatternReads(env: Env, o: Json, u: Json)
    requires PatternKept(o, u)
    ensures forall i :: PatternValid(env, o, i) ==> PatternValid(env, u, i)
  {}

  lemma FlatMeans(env: Env, o: Json, u: Json)
    requires Plain(o) && Plain(u)
    ensures FlatRead(o, u) <==> KeywordsImplied(env, o, u) && NothingRefused(o, u)
  {
    hide TypesRead, TypesPlain, TypeImplied, EnumKept, EnumImplied, BoundImplied, BoundValid, MultipleImplied,
         PatternKept, PatternValid, UniqueImplied, WholeLimit, EnumPlain, TypesKnown, Absent, GetNumber, Keyword;
    TypesIff(o, u);
    TypeIff(o, u);
    BoundsMean(o, u);
    if EnumKept(o, u) { EnumReads(o, u); }
    if PatternKept(o, u) { PatternReads(env, o, u); }
  }

  lemma AbsentAre(s: Json)
    requires Absent(s, STRUCTURE)
    ensures forall key <- STRUCTURE :: Get(s, key).None?
    ensures Properties(s) == map[] == GetObject(s, "dependencies") && RequiredSet(s) == {}
    ensures GetArray(s, "allOf").None? && SumOf(s).None? && RefOf(s).None?
  {
    hide Part, Absent;
    forall key <- STRUCTURE ensures Get(s, key).None? { assert Absent(s, STRUCTURE); AbsentKey(s, key); }
    assert {"properties", "required", "dependencies", "allOf", "anyOf", "oneOf", "$ref"} <= STRUCTURE;
  }

  lemma AbsentKey(s: Json, key: string)
    requires Absent(s, STRUCTURE) && key in STRUCTURE
    ensures Get(s, key).None?
  {}

  lemma NoProperties(env: Env, ok: Judge, o: Json, u: Json)
    requires Absent(o, STRUCTURE) && Absent(u, STRUCTURE)
    ensures PropertiesRead(env, ok, o, u) && RequirementsExcused(o, u) && DependenciesRead(ok, o, u)
  {
    AbsentAre(o);
    AbsentAre(u);
    hide Part, MayGo, MayCome, Get, Absent, GetObject, Properties, RequiredSet, DependencyRead;
  }

  lemma NoMembers(env: Env, ok: Judge, o: Json, u: Json)
    requires Absent(o, STRUCTURE) && Absent(u, STRUCTURE)
    ensures StructureRead(env, ok, o, u)
  {
    AbsentAre(o);
    AbsentAre(u);
    NoProperties(env, ok, o, u);
    hide Part, Get, Absent, GetObject, Properties, RequiredSet, PropertiesRead, RequirementsExcused, DependenciesRead;
    assert {"additionalProperties", "items", "additionalItems", "if", "then", "else"} <= STRUCTURE;
  }

  lemma NoBranches(judge: Verdict, o: Json, u: Json)
    requires Absent(o, STRUCTURE) && Absent(u, STRUCTURE)
    ensures BranchesRead(judge, o, u) && RefOf(o).None? && RefOf(u).None?
  {
    AbsentAre(o);
    AbsentAre(u);
    hide Get, Absent, GetArray, SumOf, RefOf;
    assert "not" in STRUCTURE;
  }

  /** Without subschemas a comparison is positive exactly when the reader's keywords are implied by the writer's,
      but for what the code refuses. */
  lemma PlainVerdictIff(env: Env, fuel: nat, c: Context, o: Json, u: Json)
    requires PrintsNumbers(env.show) && fuel > 0 && Plain(o) && Plain(u)
    ensures JsonCompare.Compatible(env, fuel, c, o, u) == Some(true) <==>
              KeywordsImplied(env, o, u) && NothingRefused(o, u)
  {
    hide FlatRead, StructureRead, BranchesRead, KeywordsImplied, NothingRefused, TypesKnown, EnumPlain, WholeLimit,
         RefOf, Compare, JsonCompare.Compatible, Absent;
    NoMembers(env, JudgeOf(env, fuel - 1, c), o, u);
    NoBranches((a, b) => JsonCompare.Compatible(env, fuel - 1, JsonCompare.Fresh(c), a, b), o, u);
    VerdictIff(env, fuel, c, o, u);
    FlatMeans(env, o, u);
  }
}

/** If the comparison finds only backward-compatible differences, every instance of the old schema is
    an instance of the new one. */
module JsonSoundness {
  import opened Wrappers
  import opened Canonical
  import opened JsonKinds
  import opened JsonDiff
  import opened JsonCompare
  import opened JsonMeaning
  import Matching

  // ------------------------------------------------------------------
  // The fragment
  // ------------------------------------------------------------------

  ghost predicate Absent(s: Json, keys: set<string>) { forall k <- keys :: Get(s, k).None? }

  const OUTSIDE: set<string> := {"$ref", "default", "patternProperties", "propertyNames", "oneOf", "dependencies",
                                 "if", "then", "else", "items", "contains"}

  ghost predicate KeywordsOk(s: Json) {
    && s.Obj? && Absent(s, OUTSIDE)
    && (Get(s, "type").Some? ==> TypesOf(s) != {})
    && (Get(s, "enum").Some? ==> GetArray(s, "enum").Some? && Get(s, "const").None?)
    && RequiredSet(s) <= Properties(s).Keys
    && (Get(s, "additionalProperties").Some? ==> IsFalse(Get(s, "additionalProperties")))
  }

  /** Object schemas without references, defaults, pattern properties, property names, oneOf, dependencies,
      conditionals, items or contains; required properties are declared; additionalProperties is absent or
      false; `type` is a string or an array with one, and enum and const do not meet. */
  ghost predicate Fragment(s: Json)
    decreases s
  {
    && KeywordsOk(s)
    && (forall k <- Properties(s) :: Fragment(Properties(s)[k]))
    && (GetArray(s, "allOf").Some? ==> forall x <- GetArray(s, "allOf").value :: Fragment(x))
    && (GetArray(s, "anyOf").Some? ==> forall x <- GetArray(s, "anyOf").value :: Fragment(x))
    && (Get(s, "not").Some? ==> Fragment(Get(s, "not").value))
  }

  // ------------------------------------------------------------------
  // Keywords without subschemas
  // ------------------------------------------------------------------

  ghost predicate Harmless(items: Items) { forall item <- items :: item.Report? ==> IsBackwardCompatible(item.kind) }

  lemma TypeSound(o: Json, u: Json, i: Json)
    requires KeywordsOk(o) && KeywordsOk(u) && Harmless(CompareType(o, u)) && TypeValid(o, i)
    ensures TypeValid(u, i)
  {
    hide Part;
    var ot, ut := TypesOf(o), TypesOf(u);
    if Get(u, "type").Some? {
      if ot != ut {
        assert forall item <- CompareType(o, u) :: item.Report? ==> IsBackwardCompatible(item.kind);
        assert CompareType(o, u) != [] ==> CompareType(o, u)[0] in CompareType(o, u);
        assert ot <= ut || (ot == {"integer"} && ut == {"number"});
      }
      assert Get(o, "type").Some?;
      var t :| t in ot && HasType(i, t);
      if t !in ut {
        assert "number" in ut && HasType(i, "number");
      }
    }
  }

  lemma EnumSubset(env: Env, was: seq<Json>, now: seq<Json>, i: Json)
    requires PrintsNumbers(env.show)
    requires CanonicalSet(env, was) <= CanonicalSet(env, now)
    requires exists x <- was :: Same(x, i)
    ensures exists x <- now :: Same(x, i)
  {
    var x :| x in was && Same(x, i);
    assert Canonicalize(env.show, x) in CanonicalSet(env, was);
    assert Canonicalize(env.show, x) in CanonicalSet(env, now);
    var y :| y in now && Canonicalize(env.show, y) == Canonicalize(env.show, x);
    CanonicalIsIdentity(env.show, y, x);
  }

  // `enum`, or `const` as an enum of one.
  ghost function Allowed(s: Json): Option<seq<Json>> {
    match GetArray(s, "enum")
    case Some(items) => Some(items)
    case None => match Get(s, "const") case Some(c) => Some([c]) case None => None
  }

  lemma AllowedMeans(env: Env, s: Json, i: Json)
    requires KeywordsOk(s)
    ensures EnumValid(s, i) <==> (Allowed(s).Some? ==> exists x <- Allowed(s).value :: Same(x, i))
    ensures EnumSet(env, s) == if Allowed(s).Some? then Some(CanonicalSet(env, Allowed(s).value)) else None
  {
    hide Part;
    if GetArray(s, "enum").None? && Get(s, "const").Some? {
      var c := Get(s, "const").value;
      assert c in [c];
      assert CanonicalSet(env, [c]) == {Canonicalize(env.show, c)};
    }
  }

  lemma EnumSound(env: Env, o: Json, u: Json, i: Json)
    requires PrintsNumbers(env.show) && KeywordsOk(o) && KeywordsOk(u) && Harmless(CompareEnum(env, o, u))
    requires EnumValid(o, i)
    ensures EnumValid(u, i)
  {
    hide EnumValid, EnumSet, Allowed, KeywordsOk;
    AllowedMeans(env, o, i);
    AllowedMeans(env, u, i);
    if Allowed(u).Some? {
      assert CompareEnum(env, o, u) != [] ==> CompareEnum(env, o, u)[0] in CompareEnum(env, o, u);
      EnumSubset(env, Allowed(o).value, Allowed(u).value, i);
    }
  }

  lemma BoundSound(o: Json, u: Json, b: Bound, i: Json)
    requires Harmless(CompareBound(o, u, b)) && BoundValid(o, b, i)
    ensures BoundValid(u, b, i)
  {
    hide GetNumber, Keyword, Measure;
    assert CompareBound(o, u, b) != [] ==> CompareBound(o, u, b)[0] in CompareBound(o, u, b);
  }

  lemma MultipleSound(o: Json, u: Json, i: Json)
    requires Harmless(CompareMultipleOf(o, u)) && MultipleValid(o, i)
    ensures MultipleValid(u, i)
  {
    hide GetNumber, Divisible, Times, ToReal;
    var kinds := CompareMultipleOf(o, u);
    assert kinds != [] ==> kinds[0] in kinds;
    if GetNumber(u, "multipleOf").Some? && i.Num? {
      var x, y := GetNumber(o, "multipleOf").value, GetNumber(u, "multipleOf").value;
      var k: int :| Times(ToReal(i.number), k, x);
      if x != y {
        MultipleOfMultiple(ToReal(i.number), k, x, y);
      }
    }
  }

  lemma Quotient(x: real, y: real)
    requires y != 0.0
    ensures x == (x / y) * y
  {}

  lemma Regroup(k: int, q: int, y: real)
    ensures k as real * (q as real * y) == (k * q) as real * y
  {}

  lemma MultipleOfMultiple(n: real, k: int, x: real, y: real)
    requires Times(n, k, x) && Divisible(x, y)
    ensures exists j: int :: Times(n, j, y)
  {
    var q := (x / y).Floor;
    Quotient(x, y);
    Regroup(k, q, y);
    assert Times(n, k * q, y);
  }

  lemma PatternSound(env: Env, o: Json, u: Json, i: Json)
    requires Harmless(ComparePattern(o, u)) && PatternValid(env, o, i)
    ensures PatternValid(env, u, i)
  {
    hide GetText;
    assert ComparePattern(o, u) != [] ==> ComparePattern(o, u)[0] in ComparePattern(o, u);
  }

  // ------------------------------------------------------------------
  // Properties
  // ------------------------------------------------------------------

  lemma PartsHarmless(a: Items, b: Items)
    requires Harmless(a + b)
    ensures Harmless(a) && Harmless(b)
  {
    assert forall x <- a :: x in a + b;
    assert forall x <- b :: x in a + b;
  }

  lemma {:induction false} RemovedHarmless(env: Env, o: Json, u: Json, names: seq<string>, name: string)
    requires (forall k <- names :: k in Properties(o)) && name in names && name !in Properties(u)
    requires Harmless(RemovedProperties(env, o, u, names))
    ensures Harmless(PropertyRemoved(env, o, u, name))
  {
    hide PropertyRemoved, Properties, Part;
    PartsHarmless(if names[0] in Properties(u) then [] else PropertyRemoved(env, o, u, names[0]),
            RemovedProperties(env, o, u, names[1..]));
    if names[0] != name {
      assert names == [names[0]] + names[1..];
      RemovedHarmless(env, o, u, names[1..], name);
    }
  }

  lemma {:induction false} AddedHarmless(env: Env, o: Json, u: Json, names: seq<string>, name: string)
    requires (forall k <- names :: k in Properties(u)) && name in names
    requires Harmless(UpdatedProperties(env, o, u, names))
    ensures name !in Properties(o) ==> Harmless(PropertyAdded(env, o, u, name))
    ensures name in Properties(o) ==>
          Descend(Properties(o)[name], Properties(u)[name]) in UpdatedProperties(env, o, u, names)
  {
    hide PropertyAdded, Properties, Part;
    var first := if names[0] in Properties(o) then [Descend(Properties(o)[names[0]], Properties(u)[names[0]])]
                 else PropertyAdded(env, o, u, names[0]);
    PartsHarmless(first, UpdatedProperties(env, o, u, names[1..]));
    if names[0] != name {
      assert names == [names[0]] + names[1..];
      AddedHarmless(env, o, u, names[1..], name);
    }
  }

  lemma ModelInFragment(s: Json)
    requires KeywordsOk(s)
    ensures ModelOf(s) == if IsFalse(Get(s, "additionalProperties")) then Closed else Open
  {
    assert "patternProperties" in OUTSIDE;
  }

  // A property that only the old schema declares needs an open new schema.
  lemma RemovedSound(env: Env, o: Json, u: Json, name: string)
    requires KeywordsOk(u) && name in Properties(o) && name !in Properties(u) && Harmless(CompareProperties(env, o, u))
    ensures !IsFalse(Get(u, "additionalProperties"))
  {
    hide Part;
    PartsHarmless(RemovedProperties(env, o, u, SortedKeys(Properties(o).Keys)),
            UpdatedProperties(env, o, u, SortedKeys(Properties(u).Keys)));
    RemovedHarmless(env, o, u, SortedKeys(Properties(o).Keys), name);
    ModelInFragment(u);
    assert Report(PropertyRemovedFromClosed) in [Report(PropertyRemovedFromClosed)];
  }

  // A property that only the new schema declares is not required, and means nothing or cannot occur.
  lemma AddedSound(env: Env, o: Json, u: Json, name: string)
    requires KeywordsOk(o) && name !in Properties(o) && name in Properties(u) && Harmless(CompareProperties(env, o, u))
    requires KeywordsOk(Properties(u)[name])
    ensures name !in RequiredSet(u)
    ensures Properties(u)[name] == Obj(map[]) || IsFalse(Get(o, "additionalProperties"))
  {
    hide PropertyAdded, KeywordsOk, ModelOf, Get, RequiredSet, RemovedProperties, UpdatedProperties, Properties,
         Part, IsFalse;
    PartsHarmless(RemovedProperties(env, o, u, SortedKeys(Properties(o).Keys)),
            UpdatedProperties(env, o, u, SortedKeys(Properties(u).Keys)));
    AddedHarmless(env, o, u, SortedKeys(Properties(u).Keys), name);
    ModelInFragment(o);
    AddedReports(env, o, u, name);
  }

  lemma AddedReports(env: Env, o: Json, u: Json, name: string)
    requires name in Properties(u) && KeywordsOk(Properties(u)[name])
    ensures name in RequiredSet(u) ==> Report(RequiredAdded) in PropertyAdded(env, o, u, name)
    ensures ModelOf(o).Open? && name !in RequiredSet(u) && Properties(u)[name] != Obj(map[]) ==>
          Report(PropertyAddedToOpen) in PropertyAdded(env, o, u, name)
  {
    var items, schema := PropertyAdded(env, o, u, name), Properties(u)[name];
    assert "default" in OUTSIDE && Get(schema, "default").None?;
    if name in RequiredSet(u) {
      assert items[0] == Report(RequiredAdded);
    } else if ModelOf(o).Open? && schema != Obj(map[]) {
      assert items[0] == Report(PropertyAddedToOpen);
    }
  }

  lemma {:induction false} NewlyRequiredSound(o: Json, u: Json, names: seq<string>, name: string)
    requires name in names && name in Properties(o) && name in Properties(u) && KeywordsOk(Properties(u)[name])
    ensures !Harmless(NewlyRequired(o, u, names))
  {
    hide Part;
    var items := NewlyRequired(o, u, names);
    assert "default" in OUTSIDE;
    if names[0] == name {
      assert items[0] == Report(RequiredAdded) && items[0] in items;
    } else {
      assert names == [names[0]] + names[1..];
      NewlyRequiredSound(o, u, names[1..], name);
      if Harmless(items) {
        PartsHarmless(items[..|items| - |NewlyRequired(o, u, names[1..])|], NewlyRequired(o, u, names[1..]));
      }
    }
  }

  lemma RequiredSound(env: Env, o: Json, u: Json)
    requires Fragment(o) && Fragment(u) && Harmless(CompareProperties(env, o, u)) && Harmless(CompareRequired(o, u))
    ensures RequiredSet(u) <= RequiredSet(o)
  {
    var before, after := RequiredSet(o), RequiredSet(u);
    PartsHarmless(NewlyRequired(o, u, SortedKeys(after - before)),
            seq(|SortedKeys(before - after)|, _ => Report(RequiredRemoved)));
    forall name | name in after ensures name in before {
      assert name in Properties(u) && Fragment(Properties(u)[name]);
      if name !in before {
        if name in Properties(o) {
          NewlyRequiredSound(o, u, SortedKeys(after - before), name);
        } else {
          AddedSound(env, o, u, name);
        }
      }
    }
  }

  lemma NoPatterns(env: Env, s: Json, name: string)
    requires KeywordsOk(s)
    ensures Declared(env, s, name) <==> name in Properties(s)
  {
    assert "patternProperties" in OUTSIDE;
  }

  lemma MembersSound(env: Env, o: Json, u: Json, i: Json)
    requires Fragment(o) && Fragment(u) && Harmless(CompareObject(env, o, u)) && MembersValid(env, o, i)
    ensures MembersValid(env, u, i)
  {
    hide Part, Fragment, RequiredSet, Properties, Declared, CompareProperties, CompareRequired;
    PartsHarmless(CompareProperties(env, o, u) + CompareRequired(o, u), CompareAdditionalProperties(o, u));
    PartsHarmless(CompareProperties(env, o, u), CompareRequired(o, u));
    RequiredSound(env, o, u);
    FragmentKeywords(o);
    FragmentKeywords(u);
    if i.Obj? && IsFalse(Get(u, "additionalProperties")) {
      assert CompareAdditionalProperties(o, u) != [] ==>
            CompareAdditionalProperties(o, u)[0] in CompareAdditionalProperties(o, u);
      forall k <- i.fields ensures Declared(env, u, k) {
        NoPatterns(env, o, k);
        NoPatterns(env, u, k);
        if k !in Properties(u) { RemovedSound(env, o, u, k); }
      }
    }
  }

  // ------------------------------------------------------------------
  // Running a list of items
  // ------------------------------------------------------------------

  ghost predicate ItemOk(env: Env, fuel: nat, c: Context, item: Item)
    requires fuel > 0
  {
    match item
    case Report(k) => IsBackwardCompatible(k)
    case Descend(a, b) => Compatible(env, fuel - 1, c, a, b) == Some(true)
  }

  lemma {:induction false} RunOk(env: Env, fuel: nat, c: Context, items: Items)
    requires fuel > 0 && Run(env, fuel, c, items).Some? && AllCompatible(Run(env, fuel, c, items).value)
    ensures forall item <- items :: ItemOk(env, fuel, c, item)
  {
    if items != [] {
      var first := match items[0] case Report(k) => Some([k]) case Descend(a, b) => Compare(env, fuel - 1, c, a, b);
      var rest := Run(env, fuel, c, items[1..]);
      KindsSplit(first.value, rest.value);
      RunOk(env, fuel, c, items[1..]);
      assert items == [items[0]] + items[1..];
      assert items[0].Report? ==> items[0].kind in [items[0].kind];
    }
  }

  lemma KindsSplit(a: seq<Kind>, b: seq<Kind>)
    requires AllCompatible(a + b)
    ensures AllCompatible(a) && AllCompatible(b)
  {
    assert forall k <- a :: k in a + b;
    assert forall k <- b :: k in a + b;
  }

  // ------------------------------------------------------------------
  // Combinators
  // ------------------------------------------------------------------

  // Which schemas accept one instance, and which are in the fragment.
  type Test = Json -> bool

  /** A positive verdict means that the second branch accepts what the first accepts. */
  ghost predicate Reliable(accepts: Test, known: Test, ok: Verdict) {
    forall a, b :: ok(a, b) == Some(true) && known(a) && known(b) && accepts(a) ==> accepts(b)
  }

  lemma {:induction false} ReadersAre(ok: Verdict, o: Json, us: seq<Json>, n: nat)
    requires n in Readers(ok, o, us)
    ensures n < |us| && ok(o, us[n]) == Some(true)
  {
    var front := us[..|us| - 1];
    if n in Readers(ok, o, front) {
      ReadersAre(ok, o, front, n);
    }
  }

  lemma EdgeIsVerdict(ok: Verdict, os: seq<Json>, us: seq<Json>, l: nat, r: nat)
    requires Matching.IsEdge(Edges(ok, os, us), l, r)
    ensures l < |os| && r < |us| && ok(os[l], us[r]) == Some(true)
  {
    ReadersAre(ok, os[l], us, r);
  }

  lemma AllOfSound(accepts: Test, known: Test, ok: Verdict, os: seq<Json>, us: seq<Json>)
    requires Reliable(accepts, known, ok) && (forall x <- os :: known(x) && accepts(x)) && (forall x <- us :: known(x))
    requires var kinds := CompareBranches(ok, os, us, ProductTypeExtended, ProductTypeNarrowed);
             kinds.Some? && AllCompatible(kinds.value)
    ensures forall x <- us :: accepts(x)
  {
    var kinds := CompareBranches(ok, os, us, ProductTypeExtended, ProductTypeNarrowed).value;
    assert kinds != [] ==> kinds[0] in kinds;
    if os != us {
      var m :| Matching.CoversShorter(Edges(ok, os, us), |us|, m);
      forall x <- us ensures accepts(x) {
        var r: nat :| r < |us| && us[r] == x;
        assert r in m && Matching.IsEdge(Edges(ok, os, us), m[r], r);
        EdgeIsVerdict(ok, os, us, m[r], r);
        assert os[m[r]] in os;
      }
    }
  }

  lemma AnyOfSound(accepts: Test, known: Test, ok: Verdict, os: seq<Json>, us: seq<Json>)
    requires Reliable(accepts, known, ok) && (forall x <- os :: known(x)) && (forall x <- us :: known(x))
    requires exists x <- os :: accepts(x)
    requires var kinds := CompareBranches(ok, os, us, SumTypeExtended, SumTypeNarrowed);
             kinds.Some? && AllCompatible(kinds.value)
    ensures exists x <- us :: accepts(x)
  {
    var kinds := CompareBranches(ok, os, us, SumTypeExtended, SumTypeNarrowed).value;
    assert kinds != [] ==> kinds[0] in kinds;
    if os != us {
      var m :| Matching.CoversShorter(Edges(ok, os, us), |us|, m);
      var x :| x in os && accepts(x);
      var l: nat :| l < |os| && os[l] == x;
      assert l in m.Values;
      var r :| r in m && m[r] == l;
      assert Matching.IsEdge(Edges(ok, os, us), l, r);
      EdgeIsVerdict(ok, os, us, l, r);
      assert us[r] in us;
    }
  }

  lemma {:induction false} AnyReadsSound(accepts: Test, known: Test, ok: Verdict, o: Json, us: seq<Json>)
    requires Reliable(accepts, known, ok) && known(o) && accepts(o) && (forall x <- us :: known(x))
    requires AnyReads(ok, o, us) == Some(true)
    ensures exists x <- us :: accepts(x)
  {
    if ok(o, us[0]) == Some(true) {
      assert us[0] in us;
    } else {
      AnyReadsSound(accepts, known, ok, o, us[1..]);
      var x :| x in us[1..] && accepts(x);
      assert x in us;
    }
  }

  ghost predicate KnownBranches(known: Test, s: Json) {
    && known(s) && GetArray(s, "oneOf").None?
    && (GetArray(s, "allOf").Some? ==> forall x <- GetArray(s, "allOf").value :: known(x))
    && (GetArray(s, "anyOf").Some? ==> forall x <- GetArray(s, "anyOf").value :: known(x))
    && (Get(s, "not").Some? ==> known(Get(s, "not").value))
  }

  // What the combinators of a schema demand of the instance.
  ghost predicate Branches(accepts: Test, s: Json) {
    && (GetArray(s, "allOf").Some? ==> forall x <- GetArray(s, "allOf").value :: accepts(x))
    && (GetArray(s, "anyOf").Some? ==> exists x <- GetArray(s, "anyOf").value :: accepts(x))
    && (Get(s, "not").Some? ==> !accepts(Get(s, "not").value))
  }

  lemma SumSound(accepts: Test, known: Test, ok: Verdict, o: Json, u: Json)
    requires Reliable(accepts, known, ok) && KnownBranches(known, o) && KnownBranches(known, u) && accepts(o)
    requires Branches(accepts, o)
    requires CompareSum(ok, o, u).Some? && AllCompatible(CompareSum(ok, o, u).value)
    ensures GetArray(u, "anyOf").Some? ==> exists x <- GetArray(u, "anyOf").value :: accepts(x)
  {
    hide Part;
    var kinds := CompareSum(ok, o, u).value;
    assert kinds != [] ==> kinds[0] in kinds;
    if GetArray(u, "anyOf").Some? {
      var us := GetArray(u, "anyOf").value;
      if GetArray(o, "anyOf").Some? {
        AnyOfSound(accepts, known, ok, GetArray(o, "anyOf").value, us);
      } else {
        AnyReadsSound(accepts, known, ok, o, us);
      }
    }
  }

  lemma NotSound(accepts: Test, known: Test, ok: Verdict, o: Json, u: Json)
    requires Reliable(accepts, known, ok) && KnownBranches(known, o) && KnownBranches(known, u) && Branches(accepts, o)
    requires CompareNot(ok, o, u).Some? && AllCompatible(CompareNot(ok, o, u).value)
    ensures Get(u, "not").Some? ==> !accepts(Get(u, "not").value)
  {
    hide Part, SumOf;
    var kinds := CompareNot(ok, o, u).value;
    assert kinds != [] ==> kinds[0] in kinds;
  }

  /** allOf and anyOf carry over branch by branch; `not` is contravariant. */
  lemma CombinatorsSound(accepts: Test, known: Test, ok: Verdict, o: Json, u: Json)
    requires Reliable(accepts, known, ok) && KnownBranches(known, o) && KnownBranches(known, u) && accepts(o)
    requires Branches(accepts, o)
    requires CompareCombinators(ok, o, u).Some? && AllCompatible(CompareCombinators(ok, o, u).value)
    ensures Branches(accepts, u)
  {
    hide Part, Reliable, CompareBranches, SumOf;
    var all, sum, not := CompareAllOf(ok, o, u).value, CompareSum(ok, o, u).value, CompareNot(ok, o, u).value;
    KindsSplit(all + sum, not);
    KindsSplit(all, sum);
    assert all != [] ==> all[0] in all;
    NotSound(accepts, known, ok, o, u);
    SumSound(accepts, known, ok, o, u);
    if GetArray(u, "allOf").Some? {
      AllOfSound(accepts, known, ok, GetArray(o, "allOf").value, GetArray(u, "allOf").value);
    }
  }

  // ------------------------------------------------------------------
  // The verdict is sound
  // ------------------------------------------------------------------

  lemma LeadingHarmless(env: Env, o: Json, u: Json)
    requires Harmless(Leading(env, o, u))
    ensures Harmless(CompareType(o, u)) && Harmless(CompareEnum(env, o, u)) && Harmless(CompareObject(env, o, u))
    ensures Harmless(CompareNumeric(o, u)) && Harmless(CompareString(o, u)) && Harmless(CompareArray(o, u))
    ensures Harmless(CompareSize(o, u))
  {
    PartsHarmless(CompareType(o, u) + CompareEnum(env, o, u) + CompareObject(env, o, u), CompareValues(o, u));
    PartsHarmless(CompareType(o, u) + CompareEnum(env, o, u), CompareObject(env, o, u));
    PartsHarmless(CompareType(o, u), CompareEnum(env, o, u));
    PartsHarmless(CompareNumeric(o, u) + CompareString(o, u) + CompareArray(o, u), CompareSize(o, u));
    PartsHarmless(CompareNumeric(o, u) + CompareString(o, u), CompareArray(o, u));
    PartsHarmless(CompareNumeric(o, u), CompareString(o, u));
  }

  lemma NumericHarmless(o: Json, u: Json)
    requires Harmless(CompareNumeric(o, u))
    ensures Harmless(CompareBound(o, u, Maximum)) && Harmless(CompareBound(o, u, Minimum))
    ensures Harmless(CompareBound(o, u, ExclusiveMaximum)) && Harmless(CompareBound(o, u, ExclusiveMinimum))
    ensures Harmless(CompareMultipleOf(o, u))
  {
    var a, b, f := CompareBound(o, u, Maximum), CompareBound(o, u, Minimum), CompareMultipleOf(o, u);
    var c, e := CompareBound(o, u, ExclusiveMaximum), CompareBound(o, u, ExclusiveMinimum);
    PartsHarmless(a + b + c + e, f);
    PartsHarmless(a + b + c, e);
    PartsHarmless(a + b, c);
    PartsHarmless(a, b);
  }

  lemma StringHarmless(o: Json, u: Json)
    requires Harmless(CompareString(o, u)) && Harmless(CompareSize(o, u))
    ensures Harmless(CompareBound(o, u, MaxLength)) && Harmless(CompareBound(o, u, MinLength))
    ensures Harmless(ComparePattern(o, u))
    ensures Harmless(CompareBound(o, u, MaxProperties)) && Harmless(CompareBound(o, u, MinProperties))
  {
    PartsHarmless(CompareBound(o, u, MaxLength) + CompareBound(o, u, MinLength), ComparePattern(o, u));
    PartsHarmless(CompareBound(o, u, MaxLength), CompareBound(o, u, MinLength));
    PartsHarmless(CompareBound(o, u, MaxProperties), CompareBound(o, u, MinProperties));
  }

  lemma EachBoundHarmless(o: Json, u: Json, b: Bound)
    requires Harmless(CompareNumeric(o, u)) && Harmless(CompareString(o, u)) && Harmless(CompareArray(o, u))
    requires Harmless(CompareSize(o, u))
    ensures Harmless(CompareBound(o, u, b))
  {
    match b {
      case MaxItems => ArrayHarmless(o, u);
      case MinItems => ArrayHarmless(o, u);
      case MaxLength => StringHarmless(o, u);
      case MinLength => StringHarmless(o, u);
      case MaxProperties => StringHarmless(o, u);
      case MinProperties => StringHarmless(o, u);
      case _ => NumericHarmless(o, u);
    }
  }

  lemma ArrayHarmless(o: Json, u: Json)
    requires Harmless(CompareArray(o, u))
    ensures Harmless(CompareBound(o, u, MaxItems)) && Harmless(CompareBound(o, u, MinItems))
    ensures (IsUnique(u) ==> IsUnique(o))
  {
    hide CompareItems, CompareBound, CompareAdditionalItems, IsUnique;
    var a, b, c, e := CompareItems(o, u), CompareBound(o, u, MaxItems), CompareBound(o, u, MinItems),
        CompareAdditionalItems(o, u);
    var f := if !IsUnique(o) && IsUnique(u) then [Report(UniqueItemsAdded)]
             else if IsUnique(o) && !IsUnique(u) then [Report(UniqueItemsRemoved)] else [];
    PartsHarmless(a + b + c + e, f);
    PartsHarmless(a + b + c, e);
    PartsHarmless(a + b, c);
    PartsHarmless(a, b);
    assert f != [] ==> f[0] in f;
  }

  lemma FlatSound(env: Env, o: Json, u: Json, i: Json)
    requires PrintsNumbers(env.show) && Fragment(o) && Fragment(u) && Harmless(Leading(env, o, u)) && Flat(env, o, i)
    ensures Flat(env, u, i)
  {
    LeadingHarmless(env, o, u);
    TypeSound(o, u, i);
    EnumSound(env, o, u, i);
    forall b ensures BoundValid(u, b, i) {
      EachBoundHarmless(o, u, b);
      assert BoundValid(o, b, i);
      BoundSound(o, u, b, i);
    }
    NumericHarmless(o, u);
    StringHarmless(o, u);
    ArrayHarmless(o, u);
    MultipleSound(o, u, i);
    PatternSound(env, o, u, i);
    MembersSound(env, o, u, i);
  }

  ghost function Accepts(env: Env, i: Json): Test { (s: Json) => Valid(env, s, i) }

  ghost function InFragment(): Test { (s: Json) => Fragment(s) }

  lemma FragmentBranches(s: Json)
    requires Fragment(s)
    ensures KnownBranches(InFragment(), s) && RefOf(s).None?
  {
    assert "oneOf" in OUTSIDE && "$ref" in OUTSIDE;
  }

  // The keywords outside the fragment demand nothing more.
  lemma OthersValid(env: Env, s: Json, i: Json)
    requires KeywordsOk(s) && MembersValid(env, s, i)
    ensures ItemsValid(env, s, i) && NamesValid(env, s, i) && ConditionsValid(env, s, i)
  {
    hide Part, Valid;
    forall key | key in OUTSIDE ensures Get(s, key).None? {}
    assert {"items", "contains", "patternProperties", "propertyNames", "dependencies", "if", "oneOf"} <= OUTSIDE;
  }

  lemma ValidBranches(env: Env, s: Json, i: Json)
    requires Fragment(s)
    ensures Valid(env, s, i) <==> Flat(env, s, i) && PropertiesValid(env, s, i) && Branches(Accepts(env, i), s)
  {
    hide ItemsValid, NamesValid, ConditionsValid;
    if MembersValid(env, s, i) { OthersValid(env, s, i); }
  }

  ghost predicate PropertiesValid(env: Env, s: Json, i: Json) {
    i.Obj? ==> forall k <- Properties(s) :: k in i.fields ==> Valid(env, Properties(s)[k], i.fields[k])
  }

  lemma EmptyAccepts(env: Env, i: Json)
    ensures Valid(env, Obj(map[]), i)
  {
    hide Part, Keyword, Measure, BoundHolds, HasType;
    var s := Obj(map[]);
    forall key ensures Get(s, key).None? {}
    assert Properties(s) == map[] && RequiredSet(s) == {};
    assert Flat(env, s, i);
    OthersValid(env, s, i);
  }

  lemma ConcatCompatible(a: Option<seq<Kind>>, b: Option<seq<Kind>>, c: Option<seq<Kind>>)
    requires Concat3(a, b, c).Some? && AllCompatible(Concat3(a, b, c).value)
    ensures a.Some? && AllCompatible(a.value) && b.Some? && AllCompatible(b.value)
  {
    KindsSplit(a.value + b.value, c.value);
    KindsSplit(a.value, b.value);
  }

  // What a comparison without references is made of.
  lemma CompareParts(env: Env, fuel: nat, c: Context, o: Json, u: Json)
    requires RefOf(o).None? && RefOf(u).None? && Compatible(env, fuel, c, o, u) == Some(true)
    ensures fuel > 0 && forall item <- Leading(env, o, u) :: ItemOk(env, fuel, c, item)
    ensures var kinds := CompareCombinators((a, b) => Compatible(env, fuel - 1, JsonCompare.Fresh(c), a, b), o, u);
            kinds.Some? && AllCompatible(kinds.value)
  {
    hide Leading, Trailing, CompareCombinators, RefOf;
    ConcatCompatible(Run(env, fuel, c, Leading(env, o, u)),
                     CompareCombinators((a, b) => Compatible(env, fuel - 1, JsonCompare.Fresh(c), a, b), o, u),
                     Run(env, fuel, c, Trailing(env, o, u)));
    RunOk(env, fuel, c, Leading(env, o, u));
  }

  lemma SharedDescends(env: Env, o: Json, u: Json, k: string)
    requires k in Properties(o) && k in Properties(u) && Harmless(Leading(env, o, u))
    ensures Descend(Properties(o)[k], Properties(u)[k]) in Leading(env, o, u)
  {
    LeadingHarmless(env, o, u);
    var removed, updated := RemovedProperties(env, o, u, SortedKeys(Properties(o).Keys)),
        UpdatedProperties(env, o, u, SortedKeys(Properties(u).Keys));
    PartsHarmless(CompareProperties(env, o, u) + CompareRequired(o, u), CompareAdditionalProperties(o, u));
    PartsHarmless(CompareProperties(env, o, u), CompareRequired(o, u));
    PartsHarmless(removed, updated);
    AddedHarmless(env, o, u, SortedKeys(Properties(u).Keys), k);
    var d := Descend(Properties(o)[k], Properties(u)[k]);
    assert d in CompareProperties(env, o, u);
    assert d in CompareObject(env, o, u);
  }

  lemma LeadingIsHarmless(env: Env, fuel: nat, c: Context, o: Json, u: Json)
    requires fuel > 0 && forall item <- Leading(env, o, u) :: ItemOk(env, fuel, c, item)
    ensures Harmless(Leading(env, o, u)) && Harmless(CompareProperties(env, o, u))
  {
    assert Harmless(Leading(env, o, u)) by { hide Leading; }
    LeadingHarmless(env, o, u);
    PartsHarmless(CompareProperties(env, o, u) + CompareRequired(o, u), CompareAdditionalProperties(o, u));
    PartsHarmless(CompareProperties(env, o, u), CompareRequired(o, u));
  }

  lemma FragmentProperty(s: Json, k: string)
    requires Fragment(s) && k in Properties(s)
    ensures Fragment(Properties(s)[k]) && KeywordsOk(Properties(s)[k]) && KeywordsOk(s)
  {}

  lemma ValidProperty(env: Env, s: Json, i: Json, k: string)
    requires KeywordsOk(s) && Valid(env, s, i) && i.Obj? && k in i.fields
    ensures if k in Properties(s) then Valid(env, Properties(s)[k], i.fields[k])
            else !IsFalse(Get(s, "additionalProperties"))
  {
    hide Part, ItemsValid, NamesValid, ConditionsValid;
    NoPatterns(env, s, k);
  }

  lemma PropertySound(env: Env, fuel: nat, c: Context, o: Json, u: Json, i: Json, k: string)
    requires PrintsNumbers(env.show) && fuel > 0 && Fragment(o) && Fragment(u) && Valid(env, o, i) && i.Obj?
    requires k in i.fields && k in Properties(u)
    requires forall item <- Leading(env, o, u) :: ItemOk(env, fuel, c, item)
    ensures Valid(env, Properties(u)[k], i.fields[k])
    decreases fuel, 0
  {
    hide Leading, CompareProperties, Flat, Compare, Compatible, KeywordsOk, Get, Valid, Fragment, Properties, Part,
         IsFalse, RequiredSet;
    LeadingIsHarmless(env, fuel, c, o, u);
    FragmentProperty(u, k);
    FragmentKeywords(o);
    ValidProperty(env, o, i, k);
    if k in Properties(o) {
      FragmentProperty(o, k);
      SharedDescends(env, o, u, k);
      assert ItemOk(env, fuel, c, Descend(Properties(o)[k], Properties(u)[k]));
      VerdictIsSound(env, fuel - 1, c, Properties(o)[k], Properties(u)[k], i.fields[k]);
    } else {
      AddedSound(env, o, u, k);
      EmptyAccepts(env, i.fields[k]);
    }
  }

  lemma FragmentKeywords(s: Json)
    requires Fragment(s)
    ensures KeywordsOk(s)
  {}

  /** A positive verdict on two schemas of the fragment: every instance of the old is one of the new. */
  lemma {:induction false} VerdictIsSound(env: Env, fuel: nat, c: Context, o: Json, u: Json, i: Json)
    requires PrintsNumbers(env.show) && Fragment(o) && Fragment(u)
    requires Compatible(env, fuel, c, o, u) == Some(true) && Valid(env, o, i)
    ensures Valid(env, u, i)
    decreases fuel, 1
  {
    hide Leading, Trailing, Flat, Compare, Compatible, CompareCombinators, Valid, Fragment, KnownBranches, Branches,
         Properties, RefOf;
    FragmentBranches(o);
    FragmentBranches(u);
    CompareParts(env, fuel, c, o, u);
    LeadingIsHarmless(env, fuel, c, o, u);
    ValidBranches(env, o, i);
    FlatSound(env, o, u, i);
    forall k | i.Obj? && k in Properties(u) && k in i.fields
      ensures Valid(env, Properties(u)[k], i.fields[k])
    {
      PropertySound(env, fuel, c, o, u, i, k);
    }
    var ok: Verdict := (a, b) => Compatible(env, fuel - 1, JsonCompare.Fresh(c), a, b);
    forall a, b | ok(a, b) == Some(true) && InFragment()(a) && InFragment()(b) && Accepts(env, i)(a)
      ensures Accepts(env, i)(b)
    {
      VerdictIsSound(env, fuel - 1, JsonCompare.Fresh(c), a, b, i);
    }
    CombinatorsSound(Accepts(env, i), InFragment(), ok, o, u);
    ValidBranches(env, u, i);
  }
}

/** When the comparison accepts a change, keyword by keyword, in terms of what the keywords mean. */
module JsonExact {
  import opened Wrappers
  import opened Canonical
  import opened JsonKinds
  import opened JsonDiff
  import opened JsonCompare
  import opened JsonMeaning
  import opened JsonSoundness

  // ------------------------------------------------------------------
  // Bounds
  // ------------------------------------------------------------------

  // Every measure that one limit allows, the other allows.
  ghost predicate Wider(b: Bound, was: real, now: real) {
    forall x: real :: BoundHolds(b, was, x) ==> BoundHolds(b, now, x)
  }

  /** Every measure that the old bound allows, the new one allows. */
  ghost predicate BoundImplied(o: Json, u: Json, b: Bound) {
    GetNumber(u, Keyword(b)).Some? ==>
      && GetNumber(o, Keyword(b)).Some?
      && Wider(b, GetNumber(o, Keyword(b)).value, GetNumber(u, Keyword(b)).value)
  }

  lemma BoundOrder(b: Bound, was: real, now: real)
    ensures Wider(b, was, now) <==> if IsUpper(b) then was <= now else now <= was
  {
    if b.ExclusiveMaximum? || b.ExclusiveMinimum? {
      assert !BoundHolds(b, now, now);
    } else {
      assert BoundHolds(b, was, was);
    }
  }

  lemma HarmlessOne(k: Kind)
    ensures Harmless([Report(k)]) <==> IsBackwardCompatible(k)
    ensures Harmless([])
  {
    assert [Report(k)][0] in [Report(k)];
  }

  lemma BoundIff(o: Json, u: Json, b: Bound)
    ensures Harmless(CompareBound(o, u, b)) <==> BoundImplied(o, u, b)
  {
    hide GetNumber, Keyword, Wider, Harmless;
    HarmlessOne(Bounded(b, Added));
    HarmlessOne(Bounded(b, Removed));
    HarmlessOne(Bounded(b, Increased));
    HarmlessOne(Bounded(b, Decreased));
    if GetNumber(o, Keyword(b)).Some? && GetNumber(u, Keyword(b)).Some? {
      BoundOrder(b, GetNumber(o, Keyword(b)).value, GetNumber(u, Keyword(b)).value);
    }
  }

  predicate OnNumbers(b: Bound) { b.Maximum? || b.Minimum? || b.ExclusiveMaximum? || b.ExclusiveMinimum? }

  // A number beyond any limit.
  lemma NumberBeyond(b: Bound, limit: real) returns (i: Json)
    requires OnNumbers(b)
    ensures Measure(b, i).Some? && !BoundHolds(b, limit, Measure(b, i).value)
  {
    i := Num(Float(if IsUpper(b) then limit + 1.0 else limit - 1.0));
  }

  lemma NumberAdded(o: Json, u: Json, b: Bound)
    requires OnNumbers(b) && GetNumber(o, Keyword(b)).None? && GetNumber(u, Keyword(b)).Some?
    ensures exists i :: BoundValid(o, b, i) && !BoundValid(u, b, i)
  {
    hide GetNumber, Keyword, BoundHolds;
    var i := NumberBeyond(b, GetNumber(u, Keyword(b)).value);
    assert BoundValid(o, b, i) && !BoundValid(u, b, i);
  }

  /** On numbers that is: every instance that meets the old bound meets the new one. */
  lemma NumberBoundIff(o: Json, u: Json, b: Bound)
    requires OnNumbers(b)
    ensures BoundImplied(o, u, b) <==> forall i :: BoundValid(o, b, i) ==> BoundValid(u, b, i)
  {
    hide GetNumber, Keyword, BoundHolds;
    if GetNumber(o, Keyword(b)).None? && GetNumber(u, Keyword(b)).Some? {
      NumberAdded(o, u, b);
    } else if (forall i :: BoundValid(o, b, i) ==> BoundValid(u, b, i)) && GetNumber(u, Keyword(b)).Some? {
      forall x: real | BoundHolds(b, GetNumber(o, Keyword(b)).value, x)
        ensures BoundHolds(b, GetNumber(u, Keyword(b)).value, x)
      {
        NumberMeasure(b, x);
        assert BoundValid(o, b, Num(Float(x))) && BoundValid(u, b, Num(Float(x)));
      }
    }
  }

  lemma NumberMeasure(b: Bound, x: real)
    requires OnNumbers(b)
    ensures Measure(b, Num(Float(x))) == Some(x)
  {}

  // ------------------------------------------------------------------
  // multipleOf, pattern, uniqueItems
  // ------------------------------------------------------------------

  lemma Factor(a: real, y: real)
    requires y != 0.0 && a * y == 0.0
    ensures a == 0.0
  {}

  lemma Difference(a: real, b: real, y: real)
    ensures (a - b) * y == a * y - b * y
  {}

  lemma WholeQuotient(x: real, k: int, y: real)
    requires y != 0.0 && x == k as real * y
    ensures x / y == k as real && (x / y).Floor == k
  {
    var q := x / y;
    Quotient(x, y);
    Difference(q, k as real, y);
    Factor(q - k as real, y);
  }

  lemma Once(x: real)
    ensures Times(x, 1, x)
  {}

  // Half of a number is no multiple of it.
  lemma HalfIsNone(y: real, k: int)
    requires y != 0.0
    ensures !Times(y / 2.0, k, y)
  {
    var n := 2 * k - 1;
    assert n as real * y == 2.0 * (k as real * y) - y;
    NotZero(n, y);
  }

  lemma NotZero(n: int, y: real)
    requires n != 0 && y != 0.0
    ensures n as real * y != 0.0
  {}

  lemma NoneOfZero(k: int)
    ensures !Times(1.0, k, 0.0)
  {}

  // Some number is no multiple.
  lemma NoMultiple(y: real) returns (x: real)
    ensures forall k: int :: !Times(x, k, y)
  {
    x := if y == 0.0 then 1.0 else y / 2.0;
    forall k: int ensures !Times(x, k, y) {
      if y == 0.0 { NoneOfZero(k); } else { HalfIsNone(y, k); }
    }
  }

  lemma DivisibleIff(x: real, y: real)
    requires x != y
    ensures Divisible(x, y) <==> exists k: int :: Times(x, k, y)
  {
    if Divisible(x, y) {
      Quotient(x, y);
      assert Times(x, (x / y).Floor, y);
    }
    if k: int :| Times(x, k, y) {
      if y == 0.0 { TimesZero(x, k); } else { WholeQuotient(x, k, y); }
    }
  }

  lemma TimesZero(x: real, k: int)
    requires Times(x, k, 0.0)
    ensures x == 0.0
  {}

  /** Every instance that meets the old `multipleOf` meets the new one. */
  ghost predicate MultipleImplied(o: Json, u: Json) { forall i :: MultipleValid(o, i) ==> MultipleValid(u, i) }

  lemma MultipleAdded(o: Json, u: Json)
    requires GetNumber(o, "multipleOf").None? && GetNumber(u, "multipleOf").Some?
    ensures !MultipleImplied(o, u)
  {
    hide GetNumber, Times;
    var x := NoMultiple(GetNumber(u, "multipleOf").value);
    assert MultipleValid(o, Num(Float(x))) && !MultipleValid(u, Num(Float(x)));
  }

  lemma MultipleChanged(o: Json, u: Json)
    requires GetNumber(o, "multipleOf").Some? && GetNumber(u, "multipleOf").Some?
    ensures MultipleImplied(o, u) <==>
              var x, y := GetNumber(o, "multipleOf").value, GetNumber(u, "multipleOf").value;
              x == y || Divisible(x, y)
  {
    hide GetNumber, Times, Divisible;
    var x, y := GetNumber(o, "multipleOf").value, GetNumber(u, "multipleOf").value;
    if x != y && Divisible(x, y) {
      forall i | MultipleValid(o, i) && i.Num? ensures MultipleValid(u, i) {
        var k: int :| Times(ToReal(i.number), k, x);
        MultipleOfMultiple(ToReal(i.number), k, x, y);
      }
    }
    if x != y && MultipleImplied(o, u) {
      Once(x);
      assert ToReal(Num(Float(x)).number) == x && Times(x, 1, x);
      assert MultipleValid(o, Num(Float(x))) && MultipleValid(u, Num(Float(x)));
      DivisibleIff(x, y);
    }
  }

  lemma MultipleIff(o: Json, u: Json)
    ensures Harmless(CompareMultipleOf(o, u)) <==> MultipleImplied(o, u)
  {
    hide GetNumber, Divisible, MultipleImplied;
    var items := CompareMultipleOf(o, u);
    assert items != [] ==> items[0] in items;
    match (GetNumber(o, "multipleOf"), GetNumber(u, "multipleOf"))
    case (None, Some(_)) => MultipleAdded(o, u);
    case (Some(_), Some(_)) => MultipleChanged(o, u);
    case _ => MultipleGone(o, u);
  }

  lemma MultipleGone(o: Json, u: Json)
    requires GetNumber(u, "multipleOf").None?
    ensures MultipleImplied(o, u)
  {}

  /** The code does not look into patterns: a new one is accepted only if it is the old one. */
  predicate PatternKept(o: Json, u: Json) {
    GetText(u, "pattern").Some? ==> GetText(o, "pattern") == GetText(u, "pattern")
  }

  lemma PatternIff(o: Json, u: Json)
    ensures Harmless(ComparePattern(o, u)) <==> PatternKept(o, u)
  {
    hide GetText;
    var items := ComparePattern(o, u);
    assert items != [] ==> items[0] in items;
  }

  /** Every instance that meets the old `uniqueItems` meets the new one. */
  ghost predicate UniqueImplied(o: Json, u: Json) { forall i :: UniqueValid(o, i) ==> UniqueValid(u, i) }

  lemma UniqueIff(o: Json, u: Json)
    ensures UniqueImplied(o, u) <==> (IsUnique(u) ==> IsUnique(o))
  {
    hide IsUnique;
    var twice := Arr([Null, Null]);
    assert Same(twice.items[0], twice.items[1]);
    assert UniqueValid(u, twice) <==> !IsUnique(u);
    assert UniqueValid(o, twice) <==> !IsUnique(o);
  }

  // ------------------------------------------------------------------
  // Bounds on counts
  // ------------------------------------------------------------------

  predicate OnCounts(b: Bound) { !OnNumbers(b) }

  function Repeat<T>(x: T, n: nat): (r: seq<T>)
    ensures |r| == n
  {
    if n == 0 then [] else Repeat(x, n - 1) + [x]
  }

  function Members(n: nat): (fields: map<string, Json>)
    ensures |fields| == n && forall k <- fields :: |k| < n
  {
    if n == 0 then map[]
    else
      var rest := Members(n - 1);
      assert Repeat('a', n - 1) !in rest;
      rest[Repeat('a', n - 1) := Null]
  }

  // A text, list or object of a given size.
  function Sized(b: Bound, n: nat): (i: Json)
    requires OnCounts(b)
    ensures Measure(b, i) == Some(n as real)
  {
    match b
    case MaxLength => Str(Repeat('a', n))
    case MinLength => Str(Repeat('a', n))
    case MaxItems => Arr(Repeat(Null, n))
    case MinItems => Arr(Repeat(Null, n))
    case _ => Obj(Members(n))
  }

  predicate IsCount(x: real, n: nat) { x == n as real }

  ghost predicate WholeLimit(s: Json, b: Bound) {
    GetNumber(s, Keyword(b)).Some? ==> exists n: nat :: IsCount(GetNumber(s, Keyword(b)).value, n)
  }

  // A lower bound of 0, which says nothing.
  predicate SaysNothing(s: Json, b: Bound) { !IsUpper(b) && GetNumber(s, Keyword(b)) == Some(0.0) }

  lemma CountMeasured(b: Bound, i: Json)
    requires OnCounts(b) && Measure(b, i).Some?
    ensures Measure(b, i).value >= 0.0
  {}

  lemma CountAdded(o: Json, u: Json, b: Bound)
    requires OnCounts(b) && WholeLimit(u, b)
    requires GetNumber(o, Keyword(b)).None? && GetNumber(u, Keyword(b)).Some?
    ensures (forall i :: BoundValid(o, b, i) ==> BoundValid(u, b, i)) <==> SaysNothing(u, b)
  {
    hide GetNumber, Keyword, Measure;
    var n: nat :| IsCount(GetNumber(u, Keyword(b)).value, n);
    if SaysNothing(u, b) {
      forall i ensures BoundValid(u, b, i) { if Measure(b, i).Some? { CountMeasured(b, i); } }
    } else {
      var i := Sized(b, if IsUpper(b) then n + 1 else n - 1);
      assert BoundValid(o, b, i) && !BoundValid(u, b, i);
    }
  }

  lemma CountChanged(o: Json, u: Json, b: Bound)
    requires OnCounts(b) && WholeLimit(o, b) && GetNumber(o, Keyword(b)).Some? && GetNumber(u, Keyword(b)).Some?
    ensures (forall i :: BoundValid(o, b, i) ==> BoundValid(u, b, i)) <==> BoundImplied(o, u, b)
  {
    hide GetNumber, Keyword, Measure;
    var n: nat :| IsCount(GetNumber(o, Keyword(b)).value, n);
    BoundOrder(b, n as real, GetNumber(u, Keyword(b)).value);
    if forall i :: BoundValid(o, b, i) ==> BoundValid(u, b, i) {
      assert BoundValid(o, b, Sized(b, n)) && BoundValid(u, b, Sized(b, n));
    }
  }

  /** On counts the code is stricter than the keywords only where it refuses a new lower bound of 0. */
  lemma CountBoundIff(o: Json, u: Json, b: Bound)
    requires OnCounts(b) && WholeLimit(o, b) && WholeLimit(u, b)
    ensures (forall i :: BoundValid(o, b, i) ==> BoundValid(u, b, i)) <==>
              BoundImplied(o, u, b) || (GetNumber(o, Keyword(b)).None? && SaysNothing(u, b))
  {
    hide GetNumber, Keyword, Measure, Wider, WholeLimit;
    if GetNumber(u, Keyword(b)).Some? {
      if GetNumber(o, Keyword(b)).None? { CountAdded(o, u, b); } else { CountChanged(o, u, b); }
    }
  }

  // ------------------------------------------------------------------
  // Types
  // ------------------------------------------------------------------

  const TYPE_NAMES: set<string> := {"null", "boolean", "integer", "number", "string", "array", "object"}

  ghost predicate TypesKnown(s: Json) { Get(s, "type").Some? ==> TypesOf(s) != {} && TypesOf(s) <= TYPE_NAMES }

  // A value of this type and of no other that does not contain it.
  function Sample(t: string): Json {
    if t == "null" then Null else if t == "boolean" then Bool(true) else if t == "integer" then Num(Whole(0))
    else if t == "number" then Num(Float(0.5)) else if t == "string" then Str("") else if t == "array" then Arr([])
    else Obj(map[])
  }

  lemma SampleTypes(t: string, other: string)
    requires t in TYPE_NAMES
    ensures HasType(Sample(t), other) <==> t == other || (t == "integer" && other == "number")
  {
    assert (0.5).Floor == 0;
  }

  /** Every instance of the old types has one of the new. */
  ghost predicate TypeImplied(o: Json, u: Json) { forall i :: TypeValid(o, i) ==> TypeValid(u, i) }

  /** Where the code is stricter: it refuses types where there were none, and lets an integer become a number
      only when both stand alone. */
  predicate TypesPlain(o: Json, u: Json) {
    var was, now := TypesOf(o), TypesOf(u);
    now != {} ==>
      was != {} && ("integer" in was && "integer" !in now ==> was == {"integer"} && now == {"number"})
  }

  lemma TypesAbsent(s: Json)
    requires TypesKnown(s)
    ensures TypesOf(s) == {} <==> Get(s, "type").None?
  {}

  // A type that contains every value of another.
  predicate Within(t: string, names: set<string>) { t in names || (t == "integer" && "number" in names) }

  lemma TypeNeeded(o: Json, u: Json, t: string)
    requires TypesKnown(o) && Get(u, "type").Some? && TypeImplied(o, u) && t in TypesOf(o)
    ensures Within(t, TypesOf(u))
  {
    hide TypesOf, HasType;
    TypesAbsent(o);
    SampleTypes(t, t);
    assert TypeValid(o, Sample(t)) && TypeValid(u, Sample(t));
    var x :| x in TypesOf(u) && HasType(Sample(t), x);
    SampleTypes(t, x);
  }

  lemma IntegersAreNumbers(i: Json)
    requires HasType(i, "integer")
    ensures HasType(i, "number")
  {}

  lemma TypeMembers(o: Json, u: Json)
    requires TypesKnown(o) && TypesKnown(u) && TypesOf(o) != {} && TypesOf(u) != {}
    ensures TypeImplied(o, u) <==> forall t <- TypesOf(o) :: Within(t, TypesOf(u))
  {
    hide TypesOf, HasType;
    TypesAbsent(o);
    TypesAbsent(u);
    if TypeImplied(o, u) {
      forall t <- TypesOf(o) ensures Within(t, TypesOf(u)) { TypeNeeded(o, u, t); }
    }
    if forall t <- TypesOf(o) :: Within(t, TypesOf(u)) {
      forall i | TypeValid(o, i) ensures TypeValid(u, i) {
        var t :| t in TypesOf(o) && HasType(i, t);
        if t == "integer" { IntegersAreNumbers(i); }
      }
    }
  }

  lemma TypeIff(o: Json, u: Json)
    requires TypesKnown(o) && TypesKnown(u)
    ensures Harmless(CompareType(o, u)) <==> TypeImplied(o, u) && TypesPlain(o, u)
  {
    hide TypesOf, TypesKnown, Harmless, TypeImplied;
    HarmlessOne(TypeExtended);
    HarmlessOne(TypeNarrowed);
    HarmlessOne(TypeChanged);
    if TypesOf(u) == {} {
      TypesGone(o, u);
    } else if TypesOf(o) != {} {
      TypeMembers(o, u);
    }
  }

  lemma TypesGone(o: Json, u: Json)
    requires TypesKnown(u) && TypesOf(u) == {}
    ensures TypeImplied(o, u)
  {
    TypesAbsent(u);
  }

  // ------------------------------------------------------------------
  // enum and const
  // ------------------------------------------------------------------

  /** Each value that the old schema lists, the new one lists. */
  ghost predicate EnumKept(o: Json, u: Json) {
    Allowed(u).Some? ==> Allowed(o).Some? && forall x <- Allowed(o).value :: x in Allowed(u).value
  }

  lemma EnumSetIs(env: Env, s: Json)
    ensures EnumSet(env, s) == if Allowed(s).Some? then Some(CanonicalSet(env, Allowed(s).value)) else None
  {
    hide Part;
    if GetArray(s, "enum").None? && Get(s, "const").Some? {
      var c := Get(s, "const").value;
      assert c in [c] && CanonicalSet(env, [c]) == {Canonicalize(env.show, c)};
    }
  }

  lemma SubsetIff(env: Env, was: seq<Json>, now: seq<Json>)
    requires PrintsNumbers(env.show)
    ensures CanonicalSet(env, was) <= CanonicalSet(env, now) <==> forall x <- was :: x in now
  {
    if CanonicalSet(env, was) <= CanonicalSet(env, now) {
      forall x <- was ensures x in now {
        assert Canonicalize(env.show, x) in CanonicalSet(env, was);
        var y :| y in now && Canonicalize(env.show, y) == Canonicalize(env.show, x);
        CanonicalIsIdentity(env.show, y, x);
      }
    }
  }

  lemma EnumIff(env: Env, o: Json, u: Json)
    requires PrintsNumbers(env.show)
    ensures Harmless(CompareEnum(env, o, u)) <==> EnumKept(o, u)
  {
    hide Allowed, Harmless, EnumSet, CanonicalSet;
    HarmlessOne(EnumExtended);
    HarmlessOne(EnumNarrowed);
    HarmlessOne(EnumChanged);
    EnumSetIs(env, o);
    EnumSetIs(env, u);
    if Allowed(o).Some? && Allowed(u).Some? {
      SubsetIff(env, Allowed(o).value, Allowed(u).value);
      var os, us := CanonicalSet(env, Allowed(o).value), CanonicalSet(env, Allowed(u).value);
      assert os <= us && us <= os ==> os == us;
    }
  }

  lemma {:induction false} SameAsSelf(a: Json)
    ensures Same(a, a)
  {
    match a
    case Arr(xs) => forall i | 0 <= i < |xs| ensures Same(xs[i], xs[i]) { SameAsSelf(xs[i]); }
    case Obj(fs) => forall k <- fs ensures Same(fs[k], fs[k]) { SameAsSelf(fs[k]); }
    case _ =>
  }

  lemma {:induction false} SameThrough(a: Json, b: Json, c: Json)
    requires Same(a, b) && Same(b, c)
    ensures Same(a, c)
  {
    match (a, b, c)
    case (Arr(xs), Arr(ys), Arr(zs)) =>
      forall i | 0 <= i < |xs| ensures Same(xs[i], zs[i]) { SameThrough(xs[i], ys[i], zs[i]); }
    case (Obj(fs), Obj(gs), Obj(hs)) =>
      forall k <- fs ensures Same(fs[k], hs[k]) { SameThrough(fs[k], gs[k], hs[k]); }
    case _ =>
  }

  // A number that a list does not contain.
  lemma {:induction false} Unlisted(items: seq<Json>) returns (limit: real)
    ensures forall x: real :: x > limit ==> forall i <- items :: !Same(i, Num(Float(x)))
  {
    limit := 0.0;
    if items != [] {
      var rest := Unlisted(items[1..]);
      assert items == [items[0]] + items[1..];
      limit := if items[0].Num? && ToReal(items[0].number) > rest then ToReal(items[0].number) else rest;
    }
  }

  // enum is a list, and it does not meet a const.
  ghost predicate EnumPlain(s: Json) { Get(s, "enum").Some? ==> GetArray(s, "enum").Some? && Get(s, "const").None? }

  lemma EnumMeans(s: Json, i: Json)
    requires EnumPlain(s)
    ensures EnumValid(s, i) <==> (Allowed(s).Some? ==> exists x <- Allowed(s).value :: Same(x, i))
  {
    hide Part;
    if GetArray(s, "enum").None? && Get(s, "const").Some? {
      var c := Get(s, "const").value;
      assert c in [c];
    }
  }

  /** Every instance that meets the old enum or const meets the new one. */
  ghost predicate EnumImplied(o: Json, u: Json) { forall i :: EnumValid(o, i) ==> EnumValid(u, i) }

  ghost predicate Listed(x: Json, items: seq<Json>) { exists y <- items :: Same(y, x) }

  /** The code is stricter only about equal numbers that are written apart: where the meaning asks for an equal
      value among the new ones, it asks for the same one. */
  lemma EnumImpliedIff(o: Json, u: Json)
    requires EnumPlain(o) && EnumPlain(u)
    ensures EnumImplied(o, u) <==>
              (Allowed(u).Some? ==> Allowed(o).Some? && forall x <- Allowed(o).value :: Listed(x, Allowed(u).value))
  {
    hide EnumValid, Allowed, Same;
    forall s, i | EnumPlain(s)
      ensures EnumValid(s, i) <==> (Allowed(s).Some? ==> exists x <- Allowed(s).value :: Same(x, i))
    {
      EnumMeans(s, i);
    }
    if Allowed(u).Some? && Allowed(o).None? {
      var limit := Unlisted(Allowed(u).value);
      assert EnumValid(o, Num(Float(limit + 1.0))) && !EnumValid(u, Num(Float(limit + 1.0)));
    } else if Allowed(u).Some? {
      if EnumImplied(o, u) {
        forall x <- Allowed(o).value ensures Listed(x, Allowed(u).value) {
          SameAsSelf(x);
          assert EnumValid(o, x) && EnumValid(u, x);
        }
      }
      if forall x <- Allowed(o).value :: Listed(x, Allowed(u).value) {
        forall i | EnumValid(o, i) ensures EnumValid(u, i) {
          var x :| x in Allowed(o).value && Same(x, i);
          var y :| y in Allowed(u).value && Same(y, x);
          SameThrough(y, x, i);
        }
      }
    }
  }
}

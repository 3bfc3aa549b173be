/** The comparison never ends exactly when what it needs leads on for ever. */
module JsonDivergence {
  import opened Wrappers
  import opened Canonical
  import opened JsonKinds
  import opened JsonDiff
  import opened JsonCompare
  import opened JsonTermination
  import JsonReferences

  // ------------------------------------------------------------------
  // What a comparison needs
  // ------------------------------------------------------------------

  ghost predicate Lists(o: Json, u: Json, os: seq<Json>, us: seq<Json>) {
    || (GetArray(o, "allOf") == Some(os) && GetArray(u, "allOf") == Some(us))
    || exists any :: SumOf(o) == Some(Sum(any, os)) && SumOf(u) == Some(Sum(any, us))
  }

  /** A pair of branches of one combinator whose two lists differ. */
  ghost predicate Branchwise(o: Json, u: Json, a: Json, b: Json) {
    exists os, us :: Lists(o, u, os, us) && os != us && a in os && b in us
  }

  /** Both have a `not`, the two differ, and they are compared with their sides exchanged. */
  ghost predicate Negated(o: Json, u: Json, a: Json, b: Json) {
    Get(o, "not") == Some(b) && Get(u, "not") == Some(a) && a != b
  }

  // No comparison of the two ends with this verdict.
  ghost predicate Never(env: Env, c: Context, verdict: bool, a: Json, b: Json) {
    forall fuel: nat :: Compatible(env, fuel, c, a, b) != Some(verdict)
  }

  /** A plain schema against the branches of a new sum, up to the first that reads it. */
  ghost predicate Widening(env: Env, c: Context, o: Json, u: Json, a: Json, b: Json) {
    && a == o && SumOf(o).None? && SumOf(u).Some?
    && var us := SumOf(u).value.branches;
       exists i :: 0 <= i < |us| && us[i] == b && forall x <- us[..i] :: Never(env, c, true, o, x)
  }

  /** The branches of a former sum against a plain schema, up to the first that it does not read. */
  ghost predicate Narrowing(env: Env, c: Context, o: Json, u: Json, a: Json, b: Json) {
    && b == u && SumOf(u).None? && SumOf(o).Some?
    && var os := SumOf(o).value.branches;
       exists i :: 0 <= i < |os| && os[i] == a && forall x <- os[..i] :: Never(env, c, false, x, u)
  }

  /** The pairs that the combinators of two schemas compare, each with an empty guard. */
  ghost predicate Branched(env: Env, c: Context, o: Json, u: Json, a: Json, b: Json) {
    Branchwise(o, u, a, b) || Negated(o, u, a, b) || Widening(env, c, o, u, a, b) || Narrowing(env, c, o, u, a, b)
  }

  ghost predicate Refers(s: Json, t: Json) { RefOf(s).Some? || RefOf(t).Some? }

  ghost predicate Follows(c: Context, o: Json, u: Json, d: Context, x: Json, y: Json) {
    GuardKey(o, u) !in c.visited && Followed(c, o, u) == Some((x, y)) && d == Guarding(c, o, u)
  }

  ghost predicate Descends(env: Env, o: Json, u: Json, x: Json, y: Json) {
    Descend(x, y) in Leading(env, o, u) || Descend(x, y) in Trailing(env, o, u)
  }

  /** Comparing o with u compares x with y next: behind references that are not guarded yet, as subschemas
      under the same guard, or as branches under an empty one. */
  ghost predicate Needs(env: Env, c: Context, o: Json, u: Json, d: Context, x: Json, y: Json) {
    if Refers(o, u) then Follows(c, o, u, d, x, y)
    else (d == c && Descends(env, o, u, x, y)) || (d == JsonCompare.Fresh(c) && Branched(env, d, o, u, x, y))
  }

  /** Schemas and the guard they are compared under. */
  type Pairs = (Context, Json, Json) -> bool

  ghost predicate LeadsOn(env: Env, pairs: Pairs, c: Context, o: Json, u: Json) {
    exists d, x, y :: pairs(d, x, y) && Needs(env, c, o, u, d, x, y)
  }

  /** Each of the pairs needs another of them. */
  ghost predicate Stuck(env: Env, pairs: Pairs) { forall c, o, u :: pairs(c, o, u) ==> LeadsOn(env, pairs, c, o, u) }

  // ------------------------------------------------------------------
  // Pairs that need each other are never compared to the end
  // ------------------------------------------------------------------

  lemma {:induction false} RunStops(env: Env, fuel: nat, c: Context, items: Items, x: Json, y: Json)
    requires fuel > 0 && Descend(x, y) in items && Compare(env, fuel - 1, c, x, y).None?
    ensures Run(env, fuel, c, items).None?
    decreases |items|
  {
    hide Compare;
    if items[0] != Descend(x, y) {
      assert items == [items[0]] + items[1..];
      RunStops(env, fuel, c, items[1..], x, y);
    }
  }

  lemma ListsStop(ok: Verdict, o: Json, u: Json, a: Json, b: Json)
    requires Branchwise(o, u, a, b) && ok(a, b).None?
    ensures CompareCombinators(ok, o, u).None?
  {
    hide Part, Paired, AnyReads, AllRead;
    var os, us :| Lists(o, u, os, us) && os != us && a in os && b in us;
    var i: nat :| i < |os| && os[i] == a;
    var j: nat :| j < |us| && us[j] == b;
    assert !Judged(ok, os, us);
  }

  lemma {:induction false} AnyStops(ok: Verdict, o: Json, us: seq<Json>, i: nat)
    requires i < |us| && ok(o, us[i]).None? && forall x <- us[..i] :: ok(o, x) != Some(true)
    ensures AnyReads(ok, o, us).None?
  {
    if i > 0 {
      assert us[..i] == [us[0]] + us[1..][..i - 1];
      AnyStops(ok, o, us[1..], i - 1);
    }
  }

  lemma {:induction false} AllStops(ok: Verdict, os: seq<Json>, u: Json, i: nat)
    requires i < |os| && ok(os[i], u).None? && forall x <- os[..i] :: ok(x, u) != Some(false)
    ensures AllRead(ok, os, u).None?
  {
    if i > 0 {
      assert os[..i] == [os[0]] + os[1..][..i - 1];
      AllStops(ok, os[1..], u, i - 1);
    }
  }

  lemma SumStops(ok: Verdict, o: Json, u: Json)
    requires CompareSum(ok, o, u).None? || CompareNot(ok, o, u).None?
    ensures CompareCombinators(ok, o, u).None?
  {}

  lemma WideningStops(env: Env, fuel: nat, c: Context, o: Json, u: Json, a: Json, b: Json)
    requires Widening(env, JsonCompare.Fresh(c), o, u, a, b) && Judge(env, fuel, c)(a, b).None?
    ensures CompareSum(Judge(env, fuel, c), o, u).None?
  {
    hide Compatible, SumOf, AnyReads, AllRead;
    var us := SumOf(u).value.branches;
    var i :| 0 <= i < |us| && us[i] == b && forall x <- us[..i] :: Never(env, JsonCompare.Fresh(c), true, o, x);
    AnyStops(Judge(env, fuel, c), o, us, i);
  }

  lemma NarrowingStops(env: Env, fuel: nat, c: Context, o: Json, u: Json, a: Json, b: Json)
    requires Narrowing(env, JsonCompare.Fresh(c), o, u, a, b) && Judge(env, fuel, c)(a, b).None?
    ensures CompareSum(Judge(env, fuel, c), o, u).None?
  {
    hide Compatible, SumOf, AnyReads, AllRead;
    var os := SumOf(o).value.branches;
    var i :| 0 <= i < |os| && os[i] == a && forall x <- os[..i] :: Never(env, JsonCompare.Fresh(c), false, x, u);
    AllStops(Judge(env, fuel, c), os, u, i);
  }

  lemma BranchesStop(env: Env, fuel: nat, c: Context, o: Json, u: Json, a: Json, b: Json)
    requires Branched(env, JsonCompare.Fresh(c), o, u, a, b) && Judge(env, fuel, c)(a, b).None?
    ensures CompareCombinators(Judge(env, fuel, c), o, u).None?
  {
    hide Judge, CompareCombinators, CompareSum, Branchwise, Widening, Narrowing, Get;
    var ok := Judge(env, fuel, c);
    if Branchwise(o, u, a, b) {
      ListsStop(ok, o, u, a, b);
    } else {
      if Widening(env, JsonCompare.Fresh(c), o, u, a, b) {
        WideningStops(env, fuel, c, o, u, a, b);
      } else if Narrowing(env, JsonCompare.Fresh(c), o, u, a, b) {
        NarrowingStops(env, fuel, c, o, u, a, b);
      }
      SumStops(ok, o, u);
    }
  }

  lemma JudgedNone(env: Env, fuel: nat, c: Context, a: Json, b: Json)
    requires Compare(env, fuel, JsonCompare.Fresh(c), a, b).None?
    ensures Judge(env, fuel, c)(a, b).None?
  {
    hide Compare;
  }

  // One step of the recursion.
  lemma PlainIs(env: Env, fuel: nat, c: Context, o: Json, u: Json)
    requires fuel > 0 && !Refers(o, u)
    ensures Compare(env, fuel, c, o, u) == Concat3(Run(env, fuel, c, Leading(env, o, u)),
            CompareCombinators(Judge(env, fuel - 1, c), o, u), Run(env, fuel, c, Trailing(env, o, u)))
  {
    hide Leading, Trailing, CompareCombinators, Run, RefOf;
  }

  lemma ReferringIs(env: Env, fuel: nat, c: Context, o: Json, u: Json)
    requires fuel > 0 && Refers(o, u)
    ensures Compare(env, fuel, c, o, u) == if GuardKey(o, u) in c.visited || Followed(c, o, u).None? then Some([])
            else Compare(env, fuel - 1, Guarding(c, o, u), Followed(c, o, u).value.0, Followed(c, o, u).value.1)
  {
    hide Leading, Trailing, CompareCombinators, Run, RefOf, Followed;
  }

  lemma NeedStops(env: Env, fuel: nat, c: Context, o: Json, u: Json, d: Context, x: Json, y: Json)
    requires fuel > 0 && Needs(env, c, o, u, d, x, y) && Compare(env, fuel - 1, d, x, y).None?
    ensures Compare(env, fuel, c, o, u).None?
  {
    hide Leading, Trailing, CompareCombinators, Run, Compare, Branched, Refers, Followed, Judge;
    if Refers(o, u) {
      ReferringIs(env, fuel, c, o, u);
    } else {
      if Branched(env, d, o, u, x, y) && d == JsonCompare.Fresh(c) {
        JudgedNone(env, fuel - 1, c, x, y);
        BranchesStop(env, fuel - 1, c, o, u, x, y);
      } else if Descend(x, y) in Leading(env, o, u) {
        RunStops(env, fuel, c, Leading(env, o, u), x, y);
      } else {
        RunStops(env, fuel, c, Trailing(env, o, u), x, y);
      }
      PlainIs(env, fuel, c, o, u);
    }
  }

  lemma NoFuel(env: Env, c: Context, o: Json, u: Json)
    ensures Compare(env, 0, c, o, u).None?
  {}

  lemma StepBack(env: Env, fuel: nat, c: Context, o: Json, u: Json, d: Context, x: Json, y: Json)
    requires Needs(env, c, o, u, d, x, y) && (fuel > 0 ==> Compare(env, fuel - 1, d, x, y).None?)
    ensures Compare(env, fuel, c, o, u).None?
  {
    hide Needs, Compare;
    if fuel > 0 { NeedStops(env, fuel, c, o, u, d, x, y); } else { NoFuel(env, c, o, u); }
  }

  /** Comparing pairs that need each other never ends. */
  lemma {:induction false} StuckNeverEnds(env: Env, fuel: nat, pairs: Pairs, c: Context, o: Json, u: Json)
    requires Stuck(env, pairs) && pairs(c, o, u)
    ensures Compare(env, fuel, c, o, u).None?
  {
    hide Needs, Compare;
    assert LeadsOn(env, pairs, c, o, u);
    var d, x, y :| pairs(d, x, y) && Needs(env, c, o, u, d, x, y);
    if fuel > 0 { StuckNeverEnds(env, fuel - 1, pairs, d, x, y); }
    StepBack(env, fuel, c, o, u, d, x, y);
  }

  // ------------------------------------------------------------------
  // What never ends needs something that never ends
  // ------------------------------------------------------------------

  ghost predicate Diverges(env: Env, c: Context, o: Json, u: Json) {
    forall fuel: nat :: Compare(env, fuel, c, o, u).None?
  }

  lemma {:induction false} ItemsEnd(env: Env, c: Context, items: Items) returns (fuel: nat)
    requires forall x, y :: Descend(x, y) in items ==> !Diverges(env, c, x, y)
    ensures fuel > 0 && Run(env, fuel, c, items).Some?
  {
    hide Compare;
    fuel := 1;
    if items != [] {
      assert items == [items[0]] + items[1..];
      var rest := ItemsEnd(env, c, items[1..]);
      fuel := rest;
      if items[0].Descend? {
        var x, y := items[0].orig, items[0].upd;
        assert Descend(x, y) in items;
        var first: nat :| Compare(env, first, c, x, y).Some?;
        fuel := rest + first + 1;
        MoreFuel(env, first, fuel - 1 - first, c, x, y);
        RunMore(env, rest, first + 1, c, items[1..]);
      }
    }
  }

  lemma JudgeEnds(env: Env, c: Context, a: Json, b: Json) returns (fuel: nat)
    requires !Diverges(env, JsonCompare.Fresh(c), a, b)
    ensures Judge(env, fuel, c)(a, b).Some?
  {
    hide Compare;
    fuel :| Compare(env, fuel, JsonCompare.Fresh(c), a, b).Some?;
  }

  lemma {:induction false} RowEnds(env: Env, c: Context, a: Json, bs: seq<Json>) returns (fuel: nat)
    requires forall b <- bs :: !Diverges(env, JsonCompare.Fresh(c), a, b)
    ensures forall b <- bs :: Judge(env, fuel, c)(a, b).Some?
  {
    hide Compare, Diverges, Judge;
    fuel := 0;
    if bs != [] {
      assert bs[0] in bs && bs == [bs[0]] + bs[1..];
      var first := JudgeEnds(env, c, a, bs[0]);
      var rest := RowEnds(env, c, a, bs[1..]);
      fuel := first + rest;
      JudgeMore(env, first, fuel, c);
      JudgeMore(env, rest, fuel, c);
    }
  }

  lemma {:induction false} TableEnds(env: Env, c: Context, xs: seq<Json>, ys: seq<Json>) returns (fuel: nat)
    requires forall a <- xs, b <- ys :: !Diverges(env, JsonCompare.Fresh(c), a, b)
    ensures AllJudged(Judge(env, fuel, c), xs, ys)
  {
    hide Compare, Diverges, Judge;
    fuel := 0;
    if xs != [] {
      assert xs[0] in xs && xs == [xs[0]] + xs[1..];
      var first := RowEnds(env, c, xs[0], ys);
      var rest := TableEnds(env, c, xs[1..], ys);
      fuel := first + rest;
      JudgeMore(env, first, fuel, c);
      JudgeMore(env, rest, fuel, c);
    }
  }

  // A comparison that ends has one verdict.
  lemma OneVerdict(env: Env, fuel: nat, c: Context, a: Json, b: Json, verdict: bool)
    requires Judge(env, fuel, c)(a, b) == Some(verdict)
    ensures Never(env, JsonCompare.Fresh(c), !verdict, a, b)
  {
    hide Compare, Compatible;
    forall other: nat ensures Compatible(env, other, JsonCompare.Fresh(c), a, b) != Some(!verdict) {
      JudgeMore(env, fuel, fuel + other, c);
      JudgeMore(env, other, fuel + other, c);
      assert Judge(env, fuel + other, c)(a, b) == Some(verdict);
    }
  }

  lemma {:induction false} AnyEnds(env: Env, c: Context, o: Json, us: seq<Json>) returns (fuel: nat)
    requires forall i | 0 <= i < |us| && (forall x <- us[..i] :: Never(env, JsonCompare.Fresh(c), true, o, x)) ::
          !Diverges(env, JsonCompare.Fresh(c), o, us[i])
    ensures AnyReads(Judge(env, fuel, c), o, us).Some?
  {
    hide Compare, Diverges, Judge, Never;
    fuel := 0;
    if us != [] {
      assert us[..0] == [];
      var first := JudgeEnds(env, c, o, us[0]);
      fuel := first;
      if Judge(env, first, c)(o, us[0]) == Some(false) {
        OneVerdict(env, first, c, o, us[0], false);
        forall i | 0 <= i < |us[1..]| && (forall x <- us[1..][..i] :: Never(env, JsonCompare.Fresh(c), true, o, x))
          ensures !Diverges(env, JsonCompare.Fresh(c), o, us[1..][i])
        {
          assert us[..i + 1] == [us[0]] + us[1..][..i];
        }
        var rest := AnyEnds(env, c, o, us[1..]);
        fuel := first + rest;
        JudgeMore(env, first, fuel, c);
        JudgeMore(env, rest, fuel, c);
        AnyReadsExtends(Judge(env, rest, c), Judge(env, fuel, c), o, us[1..]);
      }
    }
  }

  lemma {:induction false} AllEnd(env: Env, c: Context, os: seq<Json>, u: Json) returns (fuel: nat)
    requires forall i | 0 <= i < |os| && (forall x <- os[..i] :: Never(env, JsonCompare.Fresh(c), false, x, u)) ::
          !Diverges(env, JsonCompare.Fresh(c), os[i], u)
    ensures AllRead(Judge(env, fuel, c), os, u).Some?
  {
    hide Compare, Diverges, Judge, Never;
    fuel := 0;
    if os != [] {
      assert os[..0] == [];
      var first := JudgeEnds(env, c, os[0], u);
      fuel := first;
      if Judge(env, first, c)(os[0], u) == Some(true) {
        OneVerdict(env, first, c, os[0], u, true);
        forall i | 0 <= i < |os[1..]| && (forall x <- os[1..][..i] :: Never(env, JsonCompare.Fresh(c), false, x, u))
          ensures !Diverges(env, JsonCompare.Fresh(c), os[1..][i], u)
        {
          assert os[..i + 1] == [os[0]] + os[1..][..i];
        }
        var rest := AllEnd(env, c, os[1..], u);
        fuel := first + rest;
        JudgeMore(env, first, fuel, c);
        JudgeMore(env, rest, fuel, c);
        AllReadExtends(Judge(env, rest, c), Judge(env, fuel, c), os[1..], u);
      }
    }
  }

  ghost predicate BranchesAllEnd(env: Env, c: Context, o: Json, u: Json) {
    forall a, b :: Branched(env, JsonCompare.Fresh(c), o, u, a, b) ==> !Diverges(env, JsonCompare.Fresh(c), a, b)
  }

  lemma ListsEnd(env: Env, c: Context, o: Json, u: Json, os: seq<Json>, us: seq<Json>, longer: Kind, shorter: Kind)
          returns (fuel: nat)
    requires BranchesAllEnd(env, c, o, u) && Lists(o, u, os, us)
    ensures CompareBranches(Judge(env, fuel, c), os, us, longer, shorter).Some?
  {
    hide Diverges, Lists, Judge, Paired, Widening, Narrowing, Negated;
    fuel := 0;
    if os != us {
      forall a <- os, b <- us ensures !Diverges(env, JsonCompare.Fresh(c), a, b) { assert Branchwise(o, u, a, b); }
      fuel := TableEnds(env, c, os, us);
    }
  }

  lemma AllOfEnds(env: Env, c: Context, o: Json, u: Json) returns (fuel: nat)
    requires BranchesAllEnd(env, c, o, u)
    ensures CompareAllOf(Judge(env, fuel, c), o, u).Some?
  {
    hide BranchesAllEnd, CompareBranches, Judge;
    fuel := 0;
    match (GetArray(o, "allOf"), GetArray(u, "allOf"))
    case (Some(os), Some(us)) => fuel := ListsEnd(env, c, o, u, os, us, ProductTypeExtended, ProductTypeNarrowed);
    case _ =>
  }

  lemma WidenedEnds(env: Env, c: Context, o: Json, u: Json) returns (fuel: nat)
    requires BranchesAllEnd(env, c, o, u) && SumOf(o).None? && SumOf(u).Some?
    ensures AnyReads(Judge(env, fuel, c), o, SumOf(u).value.branches).Some?
  {
    hide Diverges, Never, Judge, AnyReads, Branchwise, Narrowing, Negated, SumOf;
    var us := SumOf(u).value.branches;
    forall i | 0 <= i < |us| && (forall x <- us[..i] :: Never(env, JsonCompare.Fresh(c), true, o, x))
      ensures !Diverges(env, JsonCompare.Fresh(c), o, us[i])
    {
      assert Widening(env, JsonCompare.Fresh(c), o, u, o, us[i]);
    }
    fuel := AnyEnds(env, c, o, us);
  }

  lemma NarrowedEnds(env: Env, c: Context, o: Json, u: Json) returns (fuel: nat)
    requires BranchesAllEnd(env, c, o, u) && SumOf(u).None? && SumOf(o).Some?
    ensures AllRead(Judge(env, fuel, c), SumOf(o).value.branches, u).Some?
  {
    hide Diverges, Never, Judge, AllRead, Branchwise, Widening, Negated, SumOf;
    var os := SumOf(o).value.branches;
    forall i | 0 <= i < |os| && (forall x <- os[..i] :: Never(env, JsonCompare.Fresh(c), false, x, u))
      ensures !Diverges(env, JsonCompare.Fresh(c), os[i], u)
    {
      assert Narrowing(env, JsonCompare.Fresh(c), o, u, os[i], u);
    }
    fuel := AllEnd(env, c, os, u);
  }

  lemma SumEnds(env: Env, c: Context, o: Json, u: Json) returns (fuel: nat)
    requires BranchesAllEnd(env, c, o, u)
    ensures CompareSum(Judge(env, fuel, c), o, u).Some?
  {
    hide BranchesAllEnd, CompareBranches, Judge, AnyReads, AllRead, SumOf;
    fuel := 0;
    match (SumOf(o), SumOf(u))
    case (Some(was), Some(now)) =>
      if was.any == now.any {
        assert SumOf(o) == Some(Sum(was.any, was.branches)) && SumOf(u) == Some(Sum(was.any, now.branches));
        fuel := ListsEnd(env, c, o, u, was.branches, now.branches, SumTypeExtended, SumTypeNarrowed);
      }
    case (None, Some(_)) => fuel := WidenedEnds(env, c, o, u);
    case (Some(_), None) => fuel := NarrowedEnds(env, c, o, u);
    case (None, None) =>
  }

  lemma NotEnds(env: Env, c: Context, o: Json, u: Json) returns (fuel: nat)
    requires BranchesAllEnd(env, c, o, u)
    ensures CompareNot(Judge(env, fuel, c), o, u).Some?
  {
    hide Diverges, Judge, Branchwise, Widening, Narrowing, Get;
    fuel := 0;
    match (Get(o, "not"), Get(u, "not"))
    case (Some(was), Some(now)) =>
      if was != now {
        assert Negated(o, u, now, was);
        fuel := JudgeEnds(env, c, now, was);
      }
    case _ =>
  }

  lemma BranchesEnd(env: Env, c: Context, o: Json, u: Json) returns (fuel: nat)
    requires BranchesAllEnd(env, c, o, u)
    ensures CompareCombinators(Judge(env, fuel, c), o, u).Some?
  {
    hide BranchesAllEnd, Judge, CompareAllOf, CompareSum, CompareNot;
    var f1 := AllOfEnds(env, c, o, u);
    var f2 := SumEnds(env, c, o, u);
    var f3 := NotEnds(env, c, o, u);
    fuel := f1 + f2 + f3;
    JudgeMore(env, f1, fuel, c);
    JudgeMore(env, f2, fuel, c);
    JudgeMore(env, f3, fuel, c);
    AllOfExtends(Judge(env, f1, c), Judge(env, fuel, c), o, u);
    SumExtends(Judge(env, f2, c), Judge(env, fuel, c), o, u);
    NotExtends(Judge(env, f3, c), Judge(env, fuel, c), o, u);
  }

  lemma PlainEnds(env: Env, c: Context, o: Json, u: Json) returns (fuel: nat)
    requires !Refers(o, u) && BranchesAllEnd(env, c, o, u)
    requires forall x, y :: Descends(env, o, u, x, y) ==> !Diverges(env, c, x, y)
    ensures Compare(env, fuel, c, o, u).Some?
  {
    hide Leading, Trailing, CompareCombinators, Run, Compare, Diverges, BranchesAllEnd, Refers, Judge;
    forall x, y | Descend(x, y) in Leading(env, o, u) ensures !Diverges(env, c, x, y) {
      assert Descends(env, o, u, x, y);
    }
    forall x, y | Descend(x, y) in Trailing(env, o, u) ensures !Diverges(env, c, x, y) {
      assert Descends(env, o, u, x, y);
    }
    var f1 := ItemsEnd(env, c, Leading(env, o, u));
    var f2 := ItemsEnd(env, c, Trailing(env, o, u));
    var f3 := BranchesEnd(env, c, o, u);
    fuel := f1 + f2 + f3 + 1;
    RunMore(env, f1, fuel - f1, c, Leading(env, o, u));
    RunMore(env, f2, fuel - f2, c, Trailing(env, o, u));
    JudgeMore(env, f3, fuel - 1, c);
    CombinatorsExtend(Judge(env, f3, c), Judge(env, fuel - 1, c), o, u);
    PlainIs(env, fuel, c, o, u);
  }

  lemma ReferringNeeds(env: Env, c: Context, o: Json, u: Json)
    requires Diverges(env, c, o, u) && Refers(o, u)
    ensures GuardKey(o, u) !in c.visited && Followed(c, o, u).Some?
    ensures var (x, y) := Followed(c, o, u).value; Diverges(env, Guarding(c, o, u), x, y)
  {
    hide Compare, Followed, Refers;
    ReferringIs(env, 1, c, o, u);
    assert Compare(env, 1, c, o, u).None?;
    var (x, y) := Followed(c, o, u).value;
    forall fuel: nat ensures Compare(env, fuel, Guarding(c, o, u), x, y).None? {
      ReferringIs(env, fuel + 1, c, o, u);
      assert Compare(env, fuel + 1, c, o, u).None?;
    }
  }

  /** A comparison that never ends needs one that never ends. */
  lemma DivergenceLeadsOn(env: Env, c: Context, o: Json, u: Json) returns (d: Context, x: Json, y: Json)
    requires Diverges(env, c, o, u)
    ensures Diverges(env, d, x, y) && Needs(env, c, o, u, d, x, y)
  {
    hide Compare, Followed, Refers, Leading, Trailing, Branched;
    if Refers(o, u) {
      ReferringNeeds(env, c, o, u);
      d := Guarding(c, o, u);
      x, y := Followed(c, o, u).value.0, Followed(c, o, u).value.1;
    } else if a, b :| Descends(env, o, u, a, b) && Diverges(env, c, a, b) {
      d, x, y := c, a, b;
    } else if a, b :| Branched(env, JsonCompare.Fresh(c), o, u, a, b) && Diverges(env, JsonCompare.Fresh(c), a, b) {
      d, x, y := JsonCompare.Fresh(c), a, b;
    } else {
      var fuel := PlainEnds(env, c, o, u);
      assert false;
    }
  }

  ghost function Diverging(env: Env): Pairs { (c, o, u) => Diverges(env, c, o, u) }

  lemma DivergingAreStuck(env: Env)
    ensures Stuck(env, Diverging(env))
  {
    hide Needs, Diverges;
    forall c, o, u | Diverging(env)(c, o, u) ensures LeadsOn(env, Diverging(env), c, o, u) {
      var d, x, y := DivergenceLeadsOn(env, c, o, u);
      assert Diverging(env)(d, x, y);
    }
  }

  /** The comparison never ends exactly when it is one of some pairs that need each other. */
  lemma NeverEndsIff(env: Env, c: Context, o: Json, u: Json)
    ensures Diverges(env, c, o, u) <==> exists pairs: Pairs :: Stuck(env, pairs) && pairs(c, o, u)
  {
    hide Compare, Stuck;
    if pairs: Pairs :| Stuck(env, pairs) && pairs(c, o, u) {
      forall fuel: nat ensures Compare(env, fuel, c, o, u).None? { StuckNeverEnds(env, fuel, pairs, c, o, u); }
    }
    if Diverges(env, c, o, u) {
      DivergingAreStuck(env);
      assert Diverging(env)(c, o, u);
    }
  }

  // ------------------------------------------------------------------
  // Documents that refer to themselves in a combinator
  // ------------------------------------------------------------------

  lemma SidesStay(c: Context, v: Json, w: Json)
    ensures JsonCompare.Fresh(c).visited == {}
    ensures JsonCompare.Fresh(Guarding(JsonCompare.Fresh(c), v, w)) == JsonCompare.Fresh(c)
  {}

  lemma NeedsBranch(env: Env, c: Context, o: Json, u: Json, a: Json, b: Json)
    requires !Refers(o, u) && Branched(env, JsonCompare.Fresh(c), o, u, a, b)
    ensures Needs(env, c, o, u, JsonCompare.Fresh(c), a, b)
  {
    hide Branched, Refers, Leading, Trailing;
  }

  lemma NeedsTarget(env: Env, c: Context, a: Json, b: Json, x: Json, y: Json)
    requires c.visited == {} && Refers(a, b) && Followed(c, a, b) == Some((x, y))
    ensures Needs(env, c, a, b, Guarding(c, a, b), x, y)
  {
    hide Branched, Refers, Followed, Leading, Trailing;
  }

  /** A pair whose combinators compare a pair that refers back to it. */
  lemma {:induction false} AloneNeverEnds(env: Env, fuel: nat, c: Context, o: Json, u: Json, a: Json, b: Json)
    requires !Refers(o, u) && Branched(env, JsonCompare.Fresh(c), o, u, a, b)
    requires Refers(a, b) && Followed(JsonCompare.Fresh(c), a, b) == Some((o, u))
    ensures Compare(env, fuel, c, o, u).None?
  {
    hide Compare, Branched, Refers, Followed, Needs, Guarding, JsonCompare.Fresh;
    var start := JsonCompare.Fresh(c);
    SidesStay(c, a, b);
    NeedsTarget(env, start, a, b, o, u);
    NeedsBranch(env, c, o, u, a, b);
    if fuel > 1 { AloneNeverEnds(env, fuel - 2, Guarding(start, a, b), o, u, a, b); }
    if fuel > 0 { StepBack(env, fuel - 1, start, a, b, Guarding(start, a, b), o, u); }
    StepBack(env, fuel, c, o, u, start, a, b);
  }

  const SELF: Json := JsonReferences.SELF

  lemma SelfFollowed(c: Context)
    ensures Refers(SELF, SELF) && Followed(c, SELF, SELF) == Some((c.orig.root, c.upd.root))
  {
    assert RefOf(SELF) == Some("#") && "#"[1..] == [];
  }

  /** `branch_compatible` starts with an empty guard: when the roots of two documents both have the branch
      `{"$ref": "#"}` in one combinator and the two lists differ at all, the comparison never ends. */
  lemma SelfBranchNeverEnds(env: Env, fuel: nat, c: Context)
    requires !Refers(c.orig.root, c.upd.root) && Branchwise(c.orig.root, c.upd.root, SELF, SELF)
    ensures Compare(env, fuel, c, c.orig.root, c.upd.root).None?
  {
    hide Compare, Branchwise, Negated, Widening, Narrowing, Refers, Followed;
    SelfFollowed(JsonCompare.Fresh(c));
    AloneNeverEnds(env, fuel, c, c.orig.root, c.upd.root, SELF, SELF);
  }

  // Recursion through `anyOf`, and the same with one branch more.
  const LOOP: Json := Obj(map["anyOf" := Arr([SELF])])

  const PLAIN: Json := Obj(map[])

  const WIDER: Json := Obj(map["anyOf" := Arr([SELF, PLAIN])])

  lemma LoopBranches()
    ensures Branchwise(LOOP, WIDER, SELF, SELF) && !Refers(LOOP, WIDER)
  {
    hide Part;
    var os, us := [SELF], [SELF, PLAIN];
    assert SumOf(LOOP) == Some(Sum(true, os)) && SumOf(WIDER) == Some(Sum(true, us));
    assert Lists(LOOP, WIDER, os, us) && |os| != |us| && SELF in os && SELF in us;
  }

  /** Two such documents. */
  lemma CombinatorCycleNeverEnds(env: Env, fuel: nat, visited: set<(string, string)>)
    ensures Compare(env, fuel, Context(Side(LOOP, []), Side(WIDER, []), visited), LOOP, WIDER).None?
  {
    hide Compare, Branchwise, Refers;
    LoopBranches();
    SelfBranchNeverEnds(env, fuel, Context(Side(LOOP, []), Side(WIDER, []), visited));
  }

  lemma OneSided(env: Env, c: Context)
    ensures Narrowing(env, c, LOOP, PLAIN, SELF, PLAIN) && Refers(SELF, PLAIN) && !Refers(LOOP, PLAIN)
    ensures c.orig.root == LOOP ==> Followed(c, SELF, PLAIN) == Some((LOOP, PLAIN))
  {
    hide Part;
    assert SumOf(LOOP) == Some(Sum(true, [SELF])) && [SELF][..0] == [];
    assert RefOf(SELF) == Some("#") && "#"[1..] == [];
  }

  /** A recursive sum that is dropped. */
  lemma DroppedCycleNeverEnds(env: Env, fuel: nat, visited: set<(string, string)>)
    ensures Compare(env, fuel, Context(Side(LOOP, []), Side(PLAIN, []), visited), LOOP, PLAIN).None?
  {
    hide Compare, Branchwise, Negated, Widening, Narrowing, Refers, Followed;
    var c := Context(Side(LOOP, []), Side(PLAIN, []), visited);
    OneSided(env, JsonCompare.Fresh(c));
    AloneNeverEnds(env, fuel, c, LOOP, PLAIN, SELF, PLAIN);
  }

  // ------------------------------------------------------------------
  // Recursion through a property of a branch
  // ------------------------------------------------------------------

  lemma {:induction false} SharedUpdated(env: Env, o: Json, u: Json, names: seq<string>, name: string)
    requires (forall k <- names :: k in Properties(u)) && name in names && name in Properties(o)
    ensures Descend(Properties(o)[name], Properties(u)[name]) in UpdatedProperties(env, o, u, names)
  {
    hide Part, Properties, PropertyAdded, AllInner;
    if names[0] != name {
      assert names == [names[0]] + names[1..];
      SharedUpdated(env, o, u, names[1..], name);
    }
  }

  lemma SharedProperty(env: Env, o: Json, u: Json, name: string)
    requires name in Properties(o) && name in Properties(u)
    ensures Descends(env, o, u, Properties(o)[name], Properties(u)[name])
  {
    hide Part, Properties, UpdatedProperties, RemovedProperties, CompareRequired, CompareAdditionalProperties, AllInner;
    hide CompareType, CompareEnum, CompareValues, Trailing;
    SharedUpdated(env, o, u, SortedKeys(Properties(u).Keys), name);
  }

  lemma NeedsProperty(env: Env, c: Context, o: Json, u: Json, name: string)
    requires !Refers(o, u) && name in Properties(o) && name in Properties(u)
    ensures Needs(env, c, o, u, c, Properties(o)[name], Properties(u)[name])
  {
    hide Part, Properties, Branched, Refers, Descends;
    SharedProperty(env, o, u, name);
  }

  /** The same when only a property of the branches refers back: the branch has emptied the guard. */
  lemma {:induction false} DetourNeverEnds(env: Env, fuel: nat, c: Context, o: Json, u: Json, a: Json, b: Json,
          name: string)
    requires !Refers(o, u) && !Refers(a, b) && Branched(env, JsonCompare.Fresh(c), o, u, a, b)
    requires name in Properties(a) && name in Properties(b) && Refers(Properties(a)[name], Properties(b)[name])
    requires Followed(JsonCompare.Fresh(c), Properties(a)[name], Properties(b)[name]) == Some((o, u))
    ensures Compare(env, fuel, c, o, u).None?
  {
    hide Compare, Branched, Refers, Followed, Needs, Guarding, Properties, JsonCompare.Fresh;
    var start, v, w := JsonCompare.Fresh(c), Properties(a)[name], Properties(b)[name];
    SidesStay(c, v, w);
    NeedsTarget(env, start, v, w, o, u);
    NeedsProperty(env, start, a, b, name);
    NeedsBranch(env, c, o, u, a, b);
    if fuel > 2 { DetourNeverEnds(env, fuel - 3, Guarding(start, v, w), o, u, a, b, name); }
    if fuel > 1 { StepBack(env, fuel - 2, start, v, w, Guarding(start, v, w), o, u); }
    if fuel > 0 { StepBack(env, fuel - 1, start, a, b, start, v, w); }
    StepBack(env, fuel, c, o, u, start, a, b);
  }

  const NODE: Json := Obj(map["properties" := Obj(map["next" := SELF])])

  const LIST: Json := Obj(map["anyOf" := Arr([NODE])])

  const LIST_OR_ANY: Json := Obj(map["anyOf" := Arr([NODE, PLAIN])])

  lemma ListBranches()
    ensures Branchwise(LIST, LIST_OR_ANY, NODE, NODE) && !Refers(LIST, LIST_OR_ANY) && !Refers(NODE, NODE)
    ensures Properties(NODE) == map["next" := SELF]
  {
    hide Part;
    var os, us := [NODE], [NODE, PLAIN];
    assert SumOf(LIST) == Some(Sum(true, os)) && SumOf(LIST_OR_ANY) == Some(Sum(true, us));
    assert Lists(LIST, LIST_OR_ANY, os, us) && |os| != |us| && NODE in os && NODE in us;
  }

  /** A linked list that gains an alternative. */
  lemma LinkedListNeverEnds(env: Env, fuel: nat, visited: set<(string, string)>)
    ensures Compare(env, fuel, Context(Side(LIST, []), Side(LIST_OR_ANY, []), visited), LIST, LIST_OR_ANY).None?
  {
    hide Compare, Branchwise, Negated, Widening, Narrowing, Refers, Followed, Properties;
    var c := Context(Side(LIST, []), Side(LIST_OR_ANY, []), visited);
    ListBranches();
    SelfFollowed(JsonCompare.Fresh(c));
    DetourNeverEnds(env, fuel, c, LIST, LIST_OR_ANY, NODE, NODE, "next");
  }
}

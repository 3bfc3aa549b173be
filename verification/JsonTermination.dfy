/** The comparison ends along a rank of values, and its result does not depend on the fuel. */
module JsonTermination {
  import opened Wrappers
  import opened Canonical
  import opened JsonKinds
  import opened JsonDiff
  import opened JsonCompare

  // ------------------------------------------------------------------
  // More fuel changes nothing
  // ------------------------------------------------------------------

  ghost predicate Extends(ok: Verdict, more: Verdict) {
    forall a, b :: ok(a, b).Some? ==> more(a, b) == ok(a, b)
  }

  lemma {:induction false} ReadersExtend(ok: Verdict, more: Verdict, o: Json, us: seq<Json>)
    requires Extends(ok, more) && forall x <- us :: ok(o, x).Some?
    ensures Readers(more, o, us) == Readers(ok, o, us)
  {
    if us != [] {
      ReadersExtend(ok, more, o, us[..|us| - 1]);
      assert us[|us| - 1] in us;
    }
  }

  lemma EdgesExtend(ok: Verdict, more: Verdict, os: seq<Json>, us: seq<Json>)
    requires Extends(ok, more) && Judged(ok, os, us)
    ensures Edges(more, os, us) == Edges(ok, os, us) && Judged(more, os, us)
  {
    forall i | 0 <= i < |os| ensures Edges(more, os, us)[i] == Edges(ok, os, us)[i] {
      ReadersExtend(ok, more, os[i], us);
    }
  }

  lemma BranchesExtend(ok: Verdict, more: Verdict, os: seq<Json>, us: seq<Json>, longer: Kind, shorter: Kind)
    requires Extends(ok, more) && CompareBranches(ok, os, us, longer, shorter).Some?
    ensures CompareBranches(more, os, us, longer, shorter) == CompareBranches(ok, os, us, longer, shorter)
  {
    if os != us {
      EdgesExtend(ok, more, os, us);
    }
  }

  lemma {:induction false} AnyReadsExtends(ok: Verdict, more: Verdict, o: Json, us: seq<Json>)
    requires Extends(ok, more) && AnyReads(ok, o, us).Some?
    ensures AnyReads(more, o, us) == AnyReads(ok, o, us)
  {
    if us != [] && ok(o, us[0]) == Some(false) {
      AnyReadsExtends(ok, more, o, us[1..]);
    }
  }

  lemma {:induction false} AllReadExtends(ok: Verdict, more: Verdict, os: seq<Json>, u: Json)
    requires Extends(ok, more) && AllRead(ok, os, u).Some?
    ensures AllRead(more, os, u) == AllRead(ok, os, u)
  {
    if os != [] && ok(os[0], u) == Some(true) {
      AllReadExtends(ok, more, os[1..], u);
    }
  }

  lemma CombinatorsExtend(ok: Verdict, more: Verdict, o: Json, u: Json)
    requires Extends(ok, more) && CompareCombinators(ok, o, u).Some?
    ensures CompareCombinators(more, o, u) == CompareCombinators(ok, o, u)
  {
    hide CompareAllOf, CompareSum, CompareNot;
    AllOfExtends(ok, more, o, u);
    SumExtends(ok, more, o, u);
    NotExtends(ok, more, o, u);
  }

  lemma AllOfExtends(ok: Verdict, more: Verdict, o: Json, u: Json)
    requires Extends(ok, more) && CompareAllOf(ok, o, u).Some?
    ensures CompareAllOf(more, o, u) == CompareAllOf(ok, o, u)
  {
    match (GetArray(o, "allOf"), GetArray(u, "allOf"))
    case (Some(os), Some(us)) => BranchesExtend(ok, more, os, us, ProductTypeExtended, ProductTypeNarrowed);
    case _ =>
  }

  lemma NotExtends(ok: Verdict, more: Verdict, o: Json, u: Json)
    requires Extends(ok, more) && CompareNot(ok, o, u).Some?
    ensures CompareNot(more, o, u) == CompareNot(ok, o, u)
  {}

  lemma SumExtends(ok: Verdict, more: Verdict, o: Json, u: Json)
    requires Extends(ok, more) && CompareSum(ok, o, u).Some?
    ensures CompareSum(more, o, u) == CompareSum(ok, o, u)
  {
    match (SumOf(o), SumOf(u))
    case (Some(was), Some(now)) =>
      if was.any == now.any { BranchesExtend(ok, more, was.branches, now.branches, SumTypeExtended, SumTypeNarrowed); }
    case (None, Some(now)) => AnyReadsExtends(ok, more, o, now.branches);
    case (Some(was), None) => AllReadExtends(ok, more, was.branches, u);
    case (None, None) =>
  }

  lemma {:induction false} RunMore(env: Env, fuel: nat, k: nat, c: Context, items: Items)
    requires fuel > 0 && Run(env, fuel, c, items).Some?
    ensures Run(env, fuel + k, c, items) == Run(env, fuel, c, items)
    decreases fuel, 0, |items|
  {
    hide Compare;
    if items != [] {
      if items[0].Descend? {
        MoreFuel(env, fuel - 1, k, c, items[0].orig, items[0].upd);
      }
      RunMore(env, fuel, k, c, items[1..]);
    }
  }

  /** A comparison that ends with some fuel ends with more, in the same result. */
  lemma {:induction false} MoreFuel(env: Env, fuel: nat, k: nat, c: Context, o: Json, u: Json)
    requires Compare(env, fuel, c, o, u).Some?
    ensures Compare(env, fuel + k, c, o, u) == Compare(env, fuel, c, o, u)
    decreases fuel, 1, 0
  {
    hide AllRefs, Followed, GuardKey, RefOf, Leading, Trailing, CompareCombinators;
    if RefOf(o).None? && RefOf(u).None? {
      var ok: Verdict := (a, b) => Compatible(env, fuel - 1, JsonCompare.Fresh(c), a, b);
      var more: Verdict := (a, b) => Compatible(env, fuel + k - 1, JsonCompare.Fresh(c), a, b);
      forall a, b | ok(a, b).Some? ensures more(a, b) == ok(a, b) {
        MoreFuel(env, fuel - 1, k, JsonCompare.Fresh(c), a, b);
      }
      CombinatorsExtend(ok, more, o, u);
      RunMore(env, fuel, k, c, Leading(env, o, u));
      RunMore(env, fuel, k, c, Trailing(env, o, u));
    } else if GuardKey(o, u) !in c.visited {
      match Followed(c, o, u)
      case Some((x, y)) => MoreFuel(env, fuel - 1, k, Guarding(c, o, u), x, y);
      case None =>
    }
  }

  // ------------------------------------------------------------------
  // References stay among those of the documents
  // ------------------------------------------------------------------

  lemma {:induction false} WalkInside(v: Json, tokens: seq<string>)
    ensures Walk(v, tokens).Some? ==> AllRefs(Walk(v, tokens).value) <= AllRefs(v)
    decreases |tokens|
  {
    if tokens != [] {
      match v {
        case Obj(fields) => if Unescape(tokens[0]) in fields { WalkInside(fields[Unescape(tokens[0])], tokens[1..]); }
        case Arr(items) =>
          var i := ParseIndex(Unescape(tokens[0]));
          if i.Some? && i.value < |items| { WalkInside(items[i.value], tokens[1..]); }
        case _ =>
      }
    }
  }

  ghost predicate SideKnown(side: Side, universe: set<string>) {
    AllRefs(side.root) <= universe && forall i :: 0 <= i < |side.refs| ==> AllRefs(side.refs[i].1) <= universe
  }

  lemma {:induction false} NamedInside(refs: RefMap, name: string, universe: set<string>)
    requires forall i :: 0 <= i < |refs| ==> AllRefs(refs[i].1) <= universe
    ensures Named(refs, name).Some? ==> AllRefs(Named(refs, name).value) <= universe
  {
    if refs != [] && refs[0].0 != name {
      NamedInside(refs[1..], name, universe);
    }
  }

  lemma ResolvedInside(side: Side, s: Json, universe: set<string>)
    requires SideKnown(side, universe)
    ensures Resolved(side, s).Some? ==> AllRefs(Resolved(side, s).value) <= universe
  {
    if RefOf(s).Some? {
      var text := RefOf(s).value;
      NamedInside(side.refs, text, universe);
      if text != [] && text[0] == '#' && |text| > 1 && text[1] == '/' {
        WalkInside(side.root, Tokens(text[1..][1..]));
      }
    }
  }

  lemma RefInside(s: Json)
    ensures RefOf(s).Some? ==> RefOf(s).value in AllRefs(s)
  {}

  // ------------------------------------------------------------------
  // No reference cycle through a combinator
  // ------------------------------------------------------------------

  function BranchesOf(s: Json): (r: seq<Json>)
    ensures forall x <- r :: Part(x, s)
  {
    (match GetArray(s, "allOf") case Some(xs) => xs case None => [])
    + (match GetArray(s, "anyOf") case Some(xs) => xs case None => [])
    + (match GetArray(s, "oneOf") case Some(xs) => xs case None => [])
    + match Get(s, "not") case Some(x) => [x] case None => []
  }

  type Rank = Json -> nat

  ghost predicate DescendsLevel(env: Env, rank: Rank, o: Json, u: Json, items: Items) {
    forall item <- items :: item.Descend? ==> rank(item.orig) <= rank(o) && rank(item.upd) <= rank(u)
  }

  ghost predicate ResolvesLevel(side: Side, rank: Rank, s: Json) {
    Resolved(side, s).Some? ==> rank(Resolved(side, s).value) <= rank(s)
  }

  /** A rank that never rises along subschemas and references and falls into every branch of a
      combinator. `universe` holds the reference texts of all documents. */
  ghost predicate Acyclic(env: Env, a: Side, b: Side, universe: set<string>, rank: Rank) {
    && SideKnown(a, universe) && SideKnown(b, universe)
    && (forall o, u :: AllRefs(o) <= universe && AllRefs(u) <= universe ==>
          DescendsLevel(env, rank, o, u, Leading(env, o, u)) && DescendsLevel(env, rank, o, u, Trailing(env, o, u)))
    && (forall s :: AllRefs(s) <= universe ==> ResolvesLevel(a, rank, s) && ResolvesLevel(b, rank, s))
    && (forall s, x :: AllRefs(s) <= universe && x in BranchesOf(s) ==> rank(x) < rank(s))
  }

  ghost function Keys(universe: set<string>): set<(string, string)> {
    set a <- universe + {""}, b <- universe + {""} :: (a, b)
  }

  ghost function Unvisited(c: Context, universe: set<string>): nat { |Keys(universe) - c.visited| }

  lemma VisitShrinks(c: Context, universe: set<string>, key: (string, string))
    requires key in Keys(universe) && key !in c.visited
    ensures Unvisited(c.(visited := c.visited + {key}), universe) < Unvisited(c, universe)
  {
    var before, after := Keys(universe) - c.visited, Keys(universe) - (c.visited + {key});
    assert before == after + {key} && key !in after;
  }

  lemma GuardKeyKnown(o: Json, u: Json, universe: set<string>)
    requires AllRefs(o) <= universe && AllRefs(u) <= universe
    ensures GuardKey(o, u) in Keys(universe)
  {
    RefInside(o);
    RefInside(u);
  }

  // ------------------------------------------------------------------
  // Termination
  // ------------------------------------------------------------------

  ghost predicate AllJudged(ok: Verdict, os: seq<Json>, us: seq<Json>) {
    forall a, b :: a in os && b in us ==> ok(a, b).Some?
  }

  lemma {:induction false} ReadsEnd(ok: Verdict, o: Json, us: seq<Json>)
    requires forall x <- us :: ok(o, x).Some?
    ensures AnyReads(ok, o, us).Some?
  {
    if us != [] {
      assert us[0] in us;
      ReadsEnd(ok, o, us[1..]);
    }
  }

  lemma {:induction false} ReadEnds(ok: Verdict, os: seq<Json>, u: Json)
    requires forall x <- os :: ok(x, u).Some?
    ensures AllRead(ok, os, u).Some?
  {
    if os != [] {
      assert os[0] in os;
      ReadEnds(ok, os[1..], u);
    }
  }

  /** The combinators are compared to the end once every needed pair is. */
  lemma CombinatorsEnd(ok: Verdict, o: Json, u: Json)
    requires AllJudged(ok, BranchesOf(o), BranchesOf(u)) && AllJudged(ok, [o], BranchesOf(u))
    requires AllJudged(ok, BranchesOf(o), [u])
    requires AllJudged(ok, BranchesOf(u), BranchesOf(o))
    ensures CompareCombinators(ok, o, u).Some?
  {
    hide Part;
    assert o in [o] && u in [u];
    assert CompareAllOf(ok, o, u).Some?;
    assert CompareSum(ok, o, u).Some? by {
      match (SumOf(o), SumOf(u))
      case (None, Some(now)) => ReadsEnd(ok, o, now.branches);
      case (Some(was), None) => ReadEnds(ok, was.branches, u);
      case _ =>
    }
    assert CompareNot(ok, o, u).Some?;
  }

  ghost function Judge(env: Env, fuel: nat, c: Context): Verdict {
    (a, b) => Compatible(env, fuel, JsonCompare.Fresh(c), a, b)
  }

  lemma JudgeMore(env: Env, fuel: nat, more: nat, c: Context)
    requires fuel <= more
    ensures Extends(Judge(env, fuel, c), Judge(env, more, c))
  {
    hide Compare;
    forall a, b | Judge(env, fuel, c)(a, b).Some? ensures Judge(env, more, c)(a, b) == Judge(env, fuel, c)(a, b) {
      MoreFuel(env, fuel, more - fuel, JsonCompare.Fresh(c), a, b);
    }
  }

  ghost predicate Known(s: Json, universe: set<string>) { AllRefs(s) <= universe }

  lemma {:induction false} RowEnds(env: Env, c: Context, universe: set<string>, rank: Rank, limit: nat, a: Json,
          bs: seq<Json>) returns (fuel: nat)
    requires Acyclic(env, c.orig, c.upd, universe, rank) && Known(a, universe)
    requires forall b <- bs :: Known(b, universe) && rank(a) + rank(b) < limit
    ensures forall b <- bs :: Judge(env, fuel, c)(a, b).Some?
    decreases 2 * limit, 0, 0, 0, |bs|
  {
    hide Acyclic, Compare, Known;
    fuel := 0;
    if bs != [] {
      assert bs[0] in bs && bs == [bs[0]] + bs[1..];
      var first := Ends(env, JsonCompare.Fresh(c), universe, rank, a, bs[0]);
      var rest := RowEnds(env, c, universe, rank, limit, a, bs[1..]);
      fuel := first + rest;
      JudgeMore(env, first, fuel, c);
      JudgeMore(env, rest, fuel, c);
      assert Judge(env, first, c)(a, bs[0]).Some?;
    }
  }

  lemma {:induction false} TableEnds(env: Env, c: Context, universe: set<string>, rank: Rank, limit: nat,
          xs: seq<Json>, ys: seq<Json>) returns (fuel: nat)
    requires Acyclic(env, c.orig, c.upd, universe, rank)
    requires forall a <- xs, b <- ys :: Known(a, universe) && Known(b, universe) && rank(a) + rank(b) < limit
    ensures AllJudged(Judge(env, fuel, c), xs, ys)
    decreases 2 * limit, 0, 0, 1, |xs|
  {
    hide Acyclic, Compatible, Known;
    fuel := 0;
    if xs != [] && ys != [] {
      assert xs[0] in xs && ys[0] in ys && xs == [xs[0]] + xs[1..];
      var first := RowEnds(env, c, universe, rank, limit, xs[0], ys);
      var rest := TableEnds(env, c, universe, rank, limit, xs[1..], ys);
      fuel := first + rest;
      JudgeMore(env, first, fuel, c);
      JudgeMore(env, rest, fuel, c);
    }
  }

  lemma BranchesKnown(env: Env, c: Context, universe: set<string>, rank: Rank, s: Json)
    requires Acyclic(env, c.orig, c.upd, universe, rank) && Known(s, universe)
    ensures forall x <- BranchesOf(s) :: Known(x, universe) && rank(x) < rank(s)
  {}

  lemma CombinatorsEndWithin(env: Env, c: Context, universe: set<string>, rank: Rank, o: Json, u: Json)
          returns (fuel: nat)
    requires Acyclic(env, c.orig, c.upd, universe, rank) && Known(o, universe) && Known(u, universe)
    ensures CompareCombinators(Judge(env, fuel, c), o, u).Some?
    decreases 2 * (rank(o) + rank(u)), 0, 0, 2, 0
  {
    hide Acyclic, BranchesOf, CompareCombinators, Compatible;
    BranchesKnown(env, c, universe, rank, o);
    BranchesKnown(env, c, universe, rank, u);
    var limit := rank(o) + rank(u);
    var f1 := TableEnds(env, c, universe, rank, limit, BranchesOf(o), BranchesOf(u));
    var f2 := TableEnds(env, c, universe, rank, limit, [o], BranchesOf(u));
    var f3 := TableEnds(env, c, universe, rank, limit, BranchesOf(o), [u]);
    var f4 := TableEnds(env, c, universe, rank, limit, BranchesOf(u), BranchesOf(o));
    fuel := f1 + f2 + f3 + f4;
    JudgeMore(env, f1, fuel, c);
    JudgeMore(env, f2, fuel, c);
    JudgeMore(env, f3, fuel, c);
    JudgeMore(env, f4, fuel, c);
    CombinatorsEnd(Judge(env, fuel, c), o, u);
  }

  lemma {:induction false} RunEnds(env: Env, c: Context, universe: set<string>, rank: Rank, o: Json, u: Json,
          items: Items) returns (fuel: nat)
    requires Acyclic(env, c.orig, c.upd, universe, rank) && Known(o, universe) && Known(u, universe)
    requires AllInner(o, u, items) && DescendsLevel(env, rank, o, u, items)
    ensures fuel > 0 && Run(env, fuel, c, items).Some?
    decreases 2 * (rank(o) + rank(u)) + 1, Unvisited(c, universe), o, 3, |items|
  {
    hide Acyclic, Compare, Unvisited, AllRefs, RefsUnder, Weight;
    fuel := 1;
    if items != [] {
      assert items == [items[0]] + items[1..] && items[0] in items;
      var rest := RunEnds(env, c, universe, rank, o, u, items[1..]);
      fuel := rest;
      if items[0].Descend? {
        assert Inner(o, u, items[0]);
        var first := Ends(env, c, universe, rank, items[0].orig, items[0].upd);
        fuel := rest + first + 1;
        MoreFuel(env, first, fuel - 1 - first, c, items[0].orig, items[0].upd);
        RunMore(env, rest, first + 1, c, items[1..]);
      }
    }
  }

  lemma LevelsKept(env: Env, c: Context, universe: set<string>, rank: Rank, o: Json, u: Json)
    requires Acyclic(env, c.orig, c.upd, universe, rank) && Known(o, universe) && Known(u, universe)
    ensures DescendsLevel(env, rank, o, u, Leading(env, o, u)) && DescendsLevel(env, rank, o, u, Trailing(env, o, u))
  {
    hide Leading, Trailing, AllRefs;
  }

  lemma InnerItems(env: Env, o: Json, u: Json)
    ensures AllInner(o, u, Leading(env, o, u)) && AllInner(o, u, Trailing(env, o, u))
  {
    hide Leading, Trailing;
  }

  lemma PlainEnds(env: Env, c: Context, universe: set<string>, rank: Rank, o: Json, u: Json) returns (fuel: nat)
    requires Acyclic(env, c.orig, c.upd, universe, rank) && Known(o, universe) && Known(u, universe) && RefOf(o).None?
    requires RefOf(u).None?
    ensures Compare(env, fuel, c, o, u).Some?
    decreases 2 * (rank(o) + rank(u)) + 1, Unvisited(c, universe), o, 4, 0
  {
    hide RefOf, Leading, Trailing, CompareCombinators, AllRefs, Acyclic, Known, Unvisited, DescendsLevel, AllInner;
    LevelsKept(env, c, universe, rank, o, u);
    InnerItems(env, o, u);
    var f1 := RunEnds(env, c, universe, rank, o, u, Leading(env, o, u));
    var f2 := RunEnds(env, c, universe, rank, o, u, Trailing(env, o, u));
    var f3 := CombinatorsEndWithin(env, c, universe, rank, o, u);
    fuel := f1 + f2 + f3 + 1;
    RunMore(env, f1, fuel - f1, c, Leading(env, o, u));
    RunMore(env, f2, fuel - f2, c, Trailing(env, o, u));
    JudgeMore(env, f3, fuel - 1, c);
    CombinatorsExtend(Judge(env, f3, c), Judge(env, fuel - 1, c), o, u);
  }

  lemma FollowedKnown(env: Env, c: Context, universe: set<string>, rank: Rank, o: Json, u: Json)
    requires Acyclic(env, c.orig, c.upd, universe, rank) && Known(o, universe) && Known(u, universe)
    ensures match Followed(c, o, u)
            case Some((x, y)) => Known(x, universe) && Known(y, universe) && rank(x) <= rank(o) && rank(y) <= rank(u)
            case None => true
  {
    hide Resolved;
    ResolvedInside(c.orig, o, universe);
    ResolvedInside(c.upd, u, universe);
    assert ResolvesLevel(c.orig, rank, o) && ResolvesLevel(c.upd, rank, u);
  }

  lemma Guarded(c: Context, universe: set<string>, o: Json, u: Json)
    requires Known(o, universe) && Known(u, universe) && GuardKey(o, u) !in c.visited
    ensures Unvisited(Guarding(c, o, u), universe) < Unvisited(c, universe)
  {
    GuardKeyKnown(o, u, universe);
    VisitShrinks(c, universe, GuardKey(o, u));
  }

  /** Along such a rank every comparison ends: each followed reference visits a new pair of reference texts,
      each other step goes to a subschema. */
  lemma {:induction false} Ends(env: Env, c: Context, universe: set<string>, rank: Rank, o: Json, u: Json)
          returns (fuel: nat)
    requires Acyclic(env, c.orig, c.upd, universe, rank) && Known(o, universe) && Known(u, universe)
    ensures Compare(env, fuel, c, o, u).Some?
    decreases 2 * (rank(o) + rank(u)) + 1, Unvisited(c, universe), o, 5, 0
  {
    hide RefOf, Acyclic, Known, Unvisited, GuardKey, Followed, Leading, Trailing, CompareCombinators;
    if RefOf(o).None? && RefOf(u).None? {
      fuel := PlainEnds(env, c, universe, rank, o, u);
    } else {
      fuel := 1;
      if GuardKey(o, u) !in c.visited && Followed(c, o, u).Some? {
        var (x, y) := Followed(c, o, u).value;
        Guarded(c, universe, o, u);
        FollowedKnown(env, c, universe, rank, o, u);
        var inner := Ends(env, Guarding(c, o, u), universe, rank, x, y);
        fuel := inner + 1;
      }
    }
  }

  lemma NoReference(s: Json)
    requires AllRefs(s) == {}
    ensures RefOf(s).None?
  {
    RefInside(s);
  }

  /** Documents without references are compared to the end. */
  lemma ReferenceFreeEnds(env: Env, c: Context, o: Json, u: Json) returns (fuel: nat)
    requires SideKnown(c.orig, {}) && SideKnown(c.upd, {}) && AllRefs(o) == AllRefs(u) == {}
    ensures Compare(env, fuel, c, o, u).Some?
  {
    hide Leading, Trailing, Compare, BranchesOf, Resolved, AllRefs, SideKnown;
    var rank: Rank := Weight;
    forall a, b
      ensures DescendsLevel(env, rank, a, b, Leading(env, a, b)) && DescendsLevel(env, rank, a, b, Trailing(env, a, b))
    {
      InnerItems(env, a, b);
      assert forall item <- Leading(env, a, b) :: Inner(a, b, item);
      assert forall item <- Trailing(env, a, b) :: Inner(a, b, item);
    }
    forall s | AllRefs(s) <= {} ensures ResolvesLevel(c.orig, rank, s) && ResolvesLevel(c.upd, rank, s) {
      NoReference(s);
      Unresolved(c.orig, s);
      Unresolved(c.upd, s);
    }
    fuel := Ends(env, c, {}, rank, o, u);
  }

  lemma Unresolved(side: Side, s: Json)
    requires RefOf(s).None?
    ensures Resolved(side, s).None?
  {}
}

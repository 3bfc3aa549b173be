/** The comparison of two documents ends when no chain of references returns to its start through a
    combinator: a condition on the finitely many reference texts of the documents. */
module JsonReferences {
  import opened Wrappers
  import opened Canonical
  import opened JsonDiff
  import opened JsonCompare
  import opened JsonTermination

  // ------------------------------------------------------------------
  // The graph of reference texts
  // ------------------------------------------------------------------

  /** The target of a text holds another text, `under` a member named as a combinator or anywhere. */
  ghost predicate Holds(side: Side, text: string, next: string, under: bool) {
    match ResolveText(side, text)
    case Some(target) => next in (if under then RefsUnder(target) else AllRefs(target))
    case None => false
  }

  ghost predicate Edge(a: Side, b: Side, text: string, next: string, under: bool) {
    Holds(a, text, next, under) || Holds(b, text, next, under)
  }

  ghost predicate Chain(a: Side, b: Side, texts: seq<string>) {
    texts != [] && forall i :: 0 <= i < |texts| - 1 ==> Edge(a, b, texts[i], texts[i + 1], false)
  }

  ghost predicate CrossesAt(a: Side, b: Side, texts: seq<string>, i: nat) {
    i + 1 < |texts| && Edge(a, b, texts[i], texts[i + 1], true)
  }

  /** A chain of references that passes through a combinator. */
  ghost predicate Crossing(a: Side, b: Side, texts: seq<string>) {
    Chain(a, b, texts) && exists i :: CrossesAt(a, b, texts, i)
  }

  ghost predicate NoCrossingCycle(a: Side, b: Side) {
    forall texts :: Crossing(a, b, texts) ==> texts[0] != texts[|texts| - 1]
  }

  // ------------------------------------------------------------------
  // Levels of texts
  // ------------------------------------------------------------------

  type Level = string -> nat

  /** Levels never rise from a text to what its target holds, and fall below a combinator. */
  ghost predicate Levels(a: Side, b: Side, universe: set<string>, level: Level) {
    && (forall t <- universe, r :: Edge(a, b, t, r, false) ==> level(r) <= level(t))
    && (forall t <- universe, r :: Edge(a, b, t, r, true) ==> level(r) < level(t))
  }

  lemma {:induction false} ChainFalls(a: Side, b: Side, universe: set<string>, level: Level, texts: seq<string>)
    requires SideKnown(a, universe) && SideKnown(b, universe) && Levels(a, b, universe, level)
    requires Chain(a, b, texts) && texts[0] in universe
    ensures level(texts[|texts| - 1]) <= level(texts[0])
    ensures Crossing(a, b, texts) ==> level(texts[|texts| - 1]) < level(texts[0])
  {
    hide Edge, SideKnown;
    if |texts| > 1 {
      var rest := texts[1..];
      assert Edge(a, b, texts[0], texts[1], false);
      EdgesStayInside(a, b, universe, texts[0], texts[1], false);
      ChainFalls(a, b, universe, level, rest);
      if i: nat :| CrossesAt(a, b, texts, i) {
        if i > 0 { assert CrossesAt(a, b, rest, i - 1); }
      }
    }
  }

  // The texts that a chain through a combinator reaches.
  ghost function Crossed(a: Side, b: Side, universe: set<string>, text: string): set<string> {
    set r <- universe | exists texts :: Crosses(a, b, text, r, texts)
  }

  ghost predicate Crosses(a: Side, b: Side, text: string, r: string, texts: seq<string>) {
    Crossing(a, b, texts) && texts[0] == text && texts[|texts| - 1] == r
  }

  lemma Extend(a: Side, b: Side, text: string, next: string, r: string, texts: seq<string>)
    requires Edge(a, b, text, next, false) && Crosses(a, b, next, r, texts)
    ensures Crosses(a, b, text, r, [text] + texts)
  {
    hide Edge;
    var longer := [text] + texts;
    var i: nat :| CrossesAt(a, b, texts, i);
    assert CrossesAt(a, b, longer, i + 1);
  }

  lemma UnderIsInside(a: Side, b: Side, text: string, next: string)
    requires Edge(a, b, text, next, true)
    ensures Edge(a, b, text, next, false)
  {}

  lemma SmallerSet(s: set<string>, t: set<string>)
    requires s <= t
    ensures |s| <= |t| && (s != t ==> |s| < |t|)
  {
    assert t == s + (t - s);
  }

  lemma CrossedShrinks(a: Side, b: Side, universe: set<string>, text: string, next: string)
    requires Edge(a, b, text, next, false)
    ensures Crossed(a, b, universe, next) <= Crossed(a, b, universe, text)
  {
    hide Edge, Crosses;
    forall r <- Crossed(a, b, universe, next) ensures r in Crossed(a, b, universe, text) {
      var texts :| Crosses(a, b, next, r, texts);
      Extend(a, b, text, next, r, texts);
    }
  }

  lemma CrossedGains(a: Side, b: Side, universe: set<string>, text: string, next: string)
    requires Edge(a, b, text, next, true) && next in universe && NoCrossingCycle(a, b)
    ensures next in Crossed(a, b, universe, text) && next !in Crossed(a, b, universe, next)
  {
    UnderIsInside(a, b, text, next);
    hide Edge;
    assert CrossesAt(a, b, [text, next], 0);
    assert Crosses(a, b, text, next, [text, next]);
  }

  ghost function CrossedCount(a: Side, b: Side, universe: set<string>): Level {
    (text: string) => |Crossed(a, b, universe, text)|
  }

  lemma EdgesStayInside(a: Side, b: Side, universe: set<string>, text: string, next: string, under: bool)
    requires SideKnown(a, universe) && SideKnown(b, universe) && Edge(a, b, text, next, under)
    ensures next in universe
  {
    if Holds(a, text, next, under) { TargetInside(a, text, universe); } else { TargetInside(b, text, universe); }
  }

  lemma TargetInside(side: Side, text: string, universe: set<string>)
    requires SideKnown(side, universe) && ResolveText(side, text).Some?
    ensures AllRefs(ResolveText(side, text).value) <= universe
  {
    hide AllRefs;
    ResolvedInside(side, Obj(map["$ref" := Str(text)]), universe);
  }

  lemma CountedLevels(a: Side, b: Side, universe: set<string>)
    requires SideKnown(a, universe) && SideKnown(b, universe) && NoCrossingCycle(a, b)
    ensures Levels(a, b, universe, CrossedCount(a, b, universe))
  {
    hide Edge, Crossed, NoCrossingCycle, SideKnown;
    var level := CrossedCount(a, b, universe);
    forall t, r | Edge(a, b, t, r, false) ensures level(r) <= level(t) {
      CrossedShrinks(a, b, universe, t, r);
      SmallerSet(Crossed(a, b, universe, r), Crossed(a, b, universe, t));
    }
    forall t, r | Edge(a, b, t, r, true) ensures level(r) < level(t) {
      UnderIsInside(a, b, t, r);
      EdgesStayInside(a, b, universe, t, r, true);
      CrossedShrinks(a, b, universe, t, r);
      CrossedGains(a, b, universe, t, r);
      SmallerSet(Crossed(a, b, universe, r), Crossed(a, b, universe, t));
    }
  }

  /** Levels exist exactly when no chain of references returns to its start through a combinator. */
  lemma LevelsIffNoCrossingCycle(a: Side, b: Side, universe: set<string>)
    requires SideKnown(a, universe) && SideKnown(b, universe)
    ensures (exists level :: Levels(a, b, universe, level)) <==> NoCrossingCycle(a, b)
  {
    hide SideKnown, Levels, Crossing, Edge;
    if level :| Levels(a, b, universe, level) {
      forall texts | Crossing(a, b, texts) ensures texts != [] && texts[0] != texts[|texts| - 1] {
        CrossingIsChain(a, b, texts);
        var n := |texts| - 1;
        EdgesStayInside(a, b, universe, texts[n - 1], texts[n], false);
        if texts[0] == texts[n] { ChainFalls(a, b, universe, level, texts); }
      }
    }
    if NoCrossingCycle(a, b) {
      CountedLevels(a, b, universe);
    }
  }

  lemma CrossingIsChain(a: Side, b: Side, texts: seq<string>)
    requires Crossing(a, b, texts)
    ensures Chain(a, b, texts) && |texts| > 1
  {}

  // ------------------------------------------------------------------
  // A rank of values from the levels of texts
  // ------------------------------------------------------------------

  function Max(x: nat, y: nat): nat { if x <= y then y else x }

  /** Above the level of each of the texts, and no higher than needed. */
  ghost function Height(level: Level, refs: set<string>): (h: nat)
    ensures forall r <- refs :: level(r) < h
    decreases |refs|
  {
    if refs == {} then 0
    else
      var r :| r in refs;
      Max(level(r) + 1, Height(level, refs - {r}))
  }

  lemma {:induction false} HeightLeast(level: Level, refs: set<string>, h: nat)
    requires forall r <- refs :: level(r) < h
    ensures Height(level, refs) <= h
    decreases |refs|
  {
    if refs != {} {
      var r :| r in refs && Height(level, refs) == Max(level(r) + 1, Height(level, refs - {r}));
      HeightLeast(level, refs - {r}, h);
      assert Max(level(r) + 1, Height(level, refs - {r})) <= h;
    }
  }

  function Scaled(bound: nat, n: nat): nat { bound * n }

  // `bound` is at least the weight of every target.
  ghost function RankBy(level: Level, bound: nat): Rank {
    (v: Json) => Max(Scaled(bound, Height(level, AllRefs(v))), Scaled(bound, Height(level, RefsUnder(v))) + Weight(v))
  }

  lemma Multiples(bound: nat, x: nat, y: nat)
    requires x <= y
    ensures Scaled(bound, x) <= Scaled(bound, y)
  {}

  lemma HeightMono(level: Level, some: set<string>, all: set<string>)
    requires some <= all
    ensures Height(level, some) <= Height(level, all)
  {
    HeightLeast(level, some, Height(level, all));
  }

  lemma RankMono(level: Level, bound: nat, x: Json, s: Json)
    requires Part(x, s)
    ensures RankBy(level, bound)(x) <= RankBy(level, bound)(s)
  {
    hide AllRefs, RefsUnder, Weight, Height, Scaled;
    HeightMono(level, AllRefs(x), AllRefs(s));
    HeightMono(level, RefsUnder(x), RefsUnder(s));
    Multiples(bound, Height(level, AllRefs(x)), Height(level, AllRefs(s)));
    Multiples(bound, Height(level, RefsUnder(x)), Height(level, RefsUnder(s)));
  }

  lemma RankBranch(level: Level, bound: nat, x: Json, s: Json)
    requires Part(x, s) && AllRefs(x) <= RefsUnder(s)
    ensures RankBy(level, bound)(x) < RankBy(level, bound)(s)
  {
    RefsUnderFew(x);
    hide AllRefs, RefsUnder, Weight, Height, Scaled;
    HeightMono(level, AllRefs(x), RefsUnder(s));
    HeightMono(level, RefsUnder(x), RefsUnder(s));
    Multiples(bound, Height(level, AllRefs(x)), Height(level, RefsUnder(s)));
    Multiples(bound, Height(level, RefsUnder(x)), Height(level, RefsUnder(s)));
  }

  lemma RefsUnderFew(x: Json)
    ensures RefsUnder(x) <= AllRefs(x)
  {}

  lemma RankTarget(level: Level, bound: nat, s: Json, text: string, target: Json)
    requires text in AllRefs(s) && Weight(target) <= bound
    requires (forall r <- AllRefs(target) :: level(r) <= level(text))
    requires forall r <- RefsUnder(target) :: level(r) < level(text)
    ensures RankBy(level, bound)(target) <= RankBy(level, bound)(s)
  {
    hide AllRefs, RefsUnder, Weight, Height, Scaled;
    HeightLeast(level, AllRefs(target), level(text) + 1);
    HeightLeast(level, RefsUnder(target), level(text));
    Multiples(bound, Height(level, AllRefs(target)), level(text) + 1);
    Multiples(bound, Height(level, RefsUnder(target)), level(text));
    Multiples(bound, level(text) + 1, Height(level, AllRefs(s)));
    OneMore(bound, level(text));
  }

  lemma OneMore(bound: nat, n: nat)
    ensures Scaled(bound, n + 1) == Scaled(bound, n) + bound
  {}

  lemma {:induction false} HeaviestTarget(side: Side, texts: set<string>) returns (bound: nat)
    ensures forall t <- texts :: ResolveText(side, t).Some? ==> Weight(ResolveText(side, t).value) <= bound
    decreases |texts|
  {
    hide Weight, ResolveText;
    bound := 0;
    if texts != {} {
      var t :| t in texts;
      var rest := HeaviestTarget(side, texts - {t});
      bound := rest + match ResolveText(side, t) case Some(x) => Weight(x) case None => 0;
    }
  }

  lemma BranchRefs(s: Json, x: Json)
    requires x in BranchesOf(s)
    ensures Part(x, s) && AllRefs(x) <= RefsUnder(s)
  {
    hide Part;
    UnderMember(s, "allOf");
    UnderMember(s, "anyOf");
    UnderMember(s, "oneOf");
    UnderMember(s, "not");
  }

  lemma UnderMember(s: Json, key: string)
    requires key in COMBINATORS
    ensures Get(s, key).Some? ==> AllRefs(Get(s, key).value) <= RefsUnder(s)
    ensures GetArray(s, key).Some? ==> forall x <- GetArray(s, key).value :: AllRefs(x) <= RefsUnder(s)
  {
    if s.Obj? && key in s.fields {
      assert MemberRefs(key, s.fields[key]) <= RefsUnder(s);
    }
  }

  ghost predicate TargetsWithin(side: Side, universe: set<string>, bound: nat) {
    forall t <- universe :: ResolveText(side, t).Some? ==> Weight(ResolveText(side, t).value) <= bound
  }

  lemma RankResolves(a: Side, b: Side, side: Side, universe: set<string>, level: Level, bound: nat, s: Json)
    requires (side == a || side == b) && Levels(a, b, universe, level) && TargetsWithin(side, universe, bound)
    requires AllRefs(s) <= universe
    ensures ResolvesLevel(side, RankBy(level, bound), s)
  {
    RefInside(s);
    hide Weight, ResolveText, RankBy, AllRefs, RefsUnder;
    if Resolved(side, s).Some? {
      var text := RefOf(s).value;
      var target := ResolveText(side, text).value;
      forall r <- AllRefs(target) ensures level(r) <= level(text) { assert Edge(a, b, text, r, false); }
      forall r <- RefsUnder(target) ensures level(r) < level(text) { assert Edge(a, b, text, r, true); }
      RankTarget(level, bound, s, text, target);
    }
  }

  lemma RankDescends(env: Env, level: Level, bound: nat, o: Json, u: Json, items: Items)
    requires AllInner(o, u, items)
    ensures DescendsLevel(env, RankBy(level, bound), o, u, items)
  {
    hide RankBy, Part;
    forall item <- items | item.Descend?
      ensures RankBy(level, bound)(item.orig) <= RankBy(level, bound)(o)
    {
      assert Inner(o, u, item);
      RankMono(level, bound, item.orig, o);
    }
    forall item <- items | item.Descend?
      ensures RankBy(level, bound)(item.upd) <= RankBy(level, bound)(u)
    {
      assert Inner(o, u, item);
      RankMono(level, bound, item.upd, u);
    }
  }

  /** Levels of the reference texts give the rank that the recursion needs. */
  lemma LevelsGiveRank(env: Env, a: Side, b: Side, universe: set<string>, level: Level) returns (rank: Rank)
    requires SideKnown(a, universe) && SideKnown(b, universe) && Levels(a, b, universe, level)
    ensures Acyclic(env, a, b, universe, rank)
  {
    hide Levels, RankBy, AllRefs, Weight, ResolveText, SideKnown, Leading, Trailing, DescendsLevel,
         ResolvesLevel, BranchesOf, AllInner;
    var ba := HeaviestTarget(a, universe);
    var bb := HeaviestTarget(b, universe);
    var bound := ba + bb;
    rank := RankBy(level, bound);
    forall o, u
      ensures DescendsLevel(env, rank, o, u, Leading(env, o, u)) && DescendsLevel(env, rank, o, u, Trailing(env, o, u))
    {
      InnerItems(env, o, u);
      RankDescends(env, level, bound, o, u, Leading(env, o, u));
      RankDescends(env, level, bound, o, u, Trailing(env, o, u));
    }
    forall s | AllRefs(s) <= universe ensures ResolvesLevel(a, rank, s) && ResolvesLevel(b, rank, s) {
      RankResolves(a, b, a, universe, level, bound, s);
      RankResolves(a, b, b, universe, level, bound, s);
    }
    forall s, x | AllRefs(s) <= universe && x in BranchesOf(s) ensures rank(x) < rank(s) {
      BranchRefs(s, x);
      RankBranch(level, bound, x, s);
    }
  }

  // ------------------------------------------------------------------
  // Termination
  // ------------------------------------------------------------------

  /** Without a cycle of references through a combinator every comparison ends, recursive schemas and
      combinators included. */
  lemma NoCrossingCycleEnds(env: Env, c: Context, universe: set<string>, o: Json, u: Json) returns (fuel: nat)
    requires SideKnown(c.orig, universe) && SideKnown(c.upd, universe) && AllRefs(o) + AllRefs(u) <= universe
    requires NoCrossingCycle(c.orig, c.upd)
    ensures Compare(env, fuel, c, o, u).Some?
  {
    hide Acyclic, NoCrossingCycle, SideKnown, Levels, Compare, AllRefs;
    CountedLevels(c.orig, c.upd, universe);
    var rank := LevelsGiveRank(env, c.orig, c.upd, universe, CrossedCount(c.orig, c.upd, universe));
    fuel := Ends(env, c, universe, rank, o, u);
  }

  // ------------------------------------------------------------------
  // Recursion without combinators
  // ------------------------------------------------------------------

  ghost predicate SidePlain(side: Side) {
    RefsUnder(side.root) == {} && forall i :: 0 <= i < |side.refs| ==> RefsUnder(side.refs[i].1) == {}
  }

  lemma {:induction false} WalkUnder(v: Json, tokens: seq<string>)
    ensures Walk(v, tokens).Some? ==> RefsUnder(Walk(v, tokens).value) <= RefsUnder(v)
    decreases |tokens|
  {
    hide RefsUnder, AllRefs, Weight;
    if tokens != [] {
      MembersArePart(v);
      match v {
        case Obj(fields) => if Unescape(tokens[0]) in fields { WalkUnder(fields[Unescape(tokens[0])], tokens[1..]); }
        case Arr(items) =>
          var i := ParseIndex(Unescape(tokens[0]));
          if i.Some? && i.value < |items| {
            assert items[i.value] in items;
            WalkUnder(items[i.value], tokens[1..]);
          }
        case _ =>
      }
    }
  }

  lemma {:induction false} NamedUnder(refs: RefMap, name: string)
    requires forall i :: 0 <= i < |refs| ==> RefsUnder(refs[i].1) == {}
    ensures Named(refs, name).Some? ==> RefsUnder(Named(refs, name).value) == {}
  {
    if refs != [] && refs[0].0 != name {
      NamedUnder(refs[1..], name);
    }
  }

  lemma PlainTarget(side: Side, text: string)
    requires SidePlain(side)
    ensures ResolveText(side, text).Some? ==> RefsUnder(ResolveText(side, text).value) == {}
  {
    hide RefsUnder, Tokens;
    NamedUnder(side.refs, text);
    if |text| > 1 && text[1] == '/' { WalkUnder(side.root, Tokens(text[1..][1..])); }
  }

  /** Documents whose references sit under no combinator are compared to the end, however recursive. */
  lemma PlainRecursionEnds(env: Env, c: Context, universe: set<string>, o: Json, u: Json) returns (fuel: nat)
    requires SideKnown(c.orig, universe) && SideKnown(c.upd, universe) && AllRefs(o) + AllRefs(u) <= universe
    requires SidePlain(c.orig) && SidePlain(c.upd)
    ensures Compare(env, fuel, c, o, u).Some?
  {
    hide SideKnown, SidePlain, AllRefs, RefsUnder, ResolveText, Compare, Chain;
    forall t, r ensures !Edge(c.orig, c.upd, t, r, true) {
      PlainTarget(c.orig, t);
      PlainTarget(c.upd, t);
    }
    assert NoCrossingCycle(c.orig, c.upd);
    fuel := NoCrossingCycleEnds(env, c, universe, o, u);
  }

  // ------------------------------------------------------------------
  // Two recursive documents with combinators
  // ------------------------------------------------------------------

  const SELF: Json := Obj(map["$ref" := Str("#")])

  const TO_LEAF: Json := Obj(map["$ref" := Str("#/d")])

  const LEAF: Json := Obj(map["properties" := Obj(map["c" := TO_LEAF])])

  // Refers to itself beside the combinator and to a recursive definition below it.
  function Tree(branches: seq<Json>): Json {
    Obj(map["anyOf" := Arr(branches), "properties" := Obj(map["n" := SELF]), "d" := LEAF])
  }

  const NARROW: seq<Json> := [TO_LEAF]

  const WIDE: seq<Json> := [TO_LEAF, Obj(map[])]

  lemma ObjectRefs(fields: map<string, Json>, r: string)
    requires "$ref" !in fields
    ensures r in AllRefs(Obj(fields)) <==> exists k <- fields :: r in AllRefs(fields[k])
    ensures r in RefsUnder(Obj(fields)) <==> exists k <- fields :: r in MemberRefs(k, fields[k])
  {}

  lemma LeafRefs()
    ensures AllRefs(SELF) == {"#"} && AllRefs(TO_LEAF) == {"#/d"} && RefsUnder(TO_LEAF) == {} == RefsUnder(SELF)
    ensures AllRefs(Arr(NARROW)) == {"#/d"} == AllRefs(Arr(WIDE))
  {
    assert TO_LEAF in NARROW && TO_LEAF in WIDE && AllRefs(Obj(map[])) == {};
  }

  lemma OneMember(key: string, v: Json)
    requires key != "$ref" && key !in COMBINATORS
    ensures AllRefs(Obj(map[key := v])) == AllRefs(v) && RefsUnder(Obj(map[key := v])) == RefsUnder(v)
  {
    hide AllRefs, RefsUnder;
    var fields := map[key := v];
    assert key in fields && fields[key] == v;
    forall r ensures r in AllRefs(Obj(fields)) <==> r in AllRefs(v) { ObjectRefs(fields, r); }
    forall r ensures r in RefsUnder(Obj(fields)) <==> r in RefsUnder(v) { ObjectRefs(fields, r); }
  }

  lemma MembersRefs()
    ensures AllRefs(LEAF) == {"#/d"} && RefsUnder(LEAF) == {}
    ensures AllRefs(Obj(map["n" := SELF])) == {"#"} && RefsUnder(Obj(map["n" := SELF])) == {}
  {
    LeafRefs();
    hide AllRefs, RefsUnder;
    OneMember("c", TO_LEAF);
    OneMember("properties", Obj(map["c" := TO_LEAF]));
    OneMember("n", SELF);
  }

  lemma TreeTargets(branches: seq<Json>)
    requires AllRefs(Arr(branches)) == {"#/d"}
    ensures AllRefs(Tree(branches)) == {"#", "#/d"} && RefsUnder(Tree(branches)) == {"#/d"}
  {
    hide AllRefs, RefsUnder;
    MembersRefs();
    var list, self := Arr(branches), Obj(map["n" := SELF]);
    var fields := map["anyOf" := list, "properties" := self, "d" := LEAF];
    assert fields["anyOf"] == list && fields["properties"] == self && fields["d"] == LEAF;
    assert MemberRefs("anyOf", list) == {"#/d"} && MemberRefs("properties", self) == {} == MemberRefs("d", LEAF);
    forall r ensures r in AllRefs(Obj(fields)) <==> r == "#" || r == "#/d" { ObjectRefs(fields, r); }
    forall r ensures r in RefsUnder(Obj(fields)) <==> r == "#/d" { ObjectRefs(fields, r); }
  }

  lemma OneLetter()
    ensures Tokens("d") == ["d"] && Unescape("d") == "d"
  {
    assert "d"[1..] == "" && Tokens("") == [""] && Unescape("") == "";
    assert ['d'] + "" == "d" && [""][1..] == [];
  }

  lemma TreeResolves(branches: seq<Json>)
    ensures ResolveText(Side(Tree(branches), []), "#") == Some(Tree(branches))
    ensures ResolveText(Side(Tree(branches), []), "#/d") == Some(LEAF)
  {
    hide AllRefs, RefsUnder, Tokens, Unescape;
    OneLetter();
    var root := Tree(branches);
    assert "#"[1..] == "" && "#/d"[1..] == "/d" && "/d"[1..] == "d" && ["d"][1..] == [];
    assert Walk(root.fields["d"], []) == Some(root.fields["d"]);
    assert Walk(root, ["d"]) == Some(root.fields["d"]);
    assert Pointer(root, "/d") == Walk(root, Tokens("d"));
  }

  /** Their branch lists differ and every branch is recursive, and still the comparison ends. */
  lemma TreesEnd(env: Env, visited: set<(string, string)>) returns (fuel: nat)
    ensures var c := Context(Side(Tree(NARROW), []), Side(Tree(WIDE), []), visited);
            Compare(env, fuel, c, Tree(NARROW), Tree(WIDE)).Some?
  {
    hide Compare, AllRefs, RefsUnder, ResolveText, Tree;
    LeafRefs();
    MembersRefs();
    TreeTargets(NARROW);
    TreeTargets(WIDE);
    TreeResolves(NARROW);
    TreeResolves(WIDE);
    var a, b, universe := Side(Tree(NARROW), []), Side(Tree(WIDE), []), {"#", "#/d"};
    var level: Level := (t: string) => if t == "#" then 1 else 0;
    assert Levels(a, b, universe, level);
    LevelsIffNoCrossingCycle(a, b, universe);
    fuel := NoCrossingCycleEnds(env, Context(a, b, visited), universe, Tree(NARROW), Tree(WIDE));
  }
}

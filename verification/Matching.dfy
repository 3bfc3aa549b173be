/** Kuhn's augmenting-path search, which pairs the branches of two combinators. */
module Matching {

  datatype Partner = Free | Taken(left: nat)

  // edges[i] lists the right vertices compatible with left vertex i.
  type Edges = seq<seq<nat>>

  ghost predicate IsEdge(edges: Edges, left: nat, right: nat) {
    left < |edges| && right in edges[left]
  }

  ghost predicate WellFormed(edges: Edges, rights: nat) {
    forall i: nat, r: nat :: IsEdge(edges, i, r) ==> r < rights
  }

  /** A matching maps right vertices to distinct left vertices below `bound`, along edges. */
  ghost predicate IsMatching(edges: Edges, bound: nat, m: map<nat, nat>) {
    && (forall r <- m :: m[r] < bound && IsEdge(edges, m[r], r))
    && (forall r, s :: r in m && s in m && m[r] == m[s] ==> r == s)
  }

  ghost predicate IsMaximum(edges: Edges, bound: nat, size: nat) {
    && (exists m :: IsMatching(edges, bound, m) && |m| == size)
    && (forall m :: IsMatching(edges, bound, m) ==> |m| <= size)
  }

  ghost function Pairs(matched: seq<Partner>): map<nat, nat> {
    map r | 0 <= r < |matched| && matched[r].Taken? :: matched[r].left
  }

  // ------------------------------------------------------------------
  // What one search promises
  // ------------------------------------------------------------------

  ghost predicate Grows(before: seq<bool>, after: seq<bool>) {
    |before| == |after| && forall r :: 0 <= r < |before| && before[r] ==> after[r]
  }

  // Visited by the search that started with `before`.
  ghost predicate Newly(before: seq<bool>, after: seq<bool>, r: int) {
    0 <= r < |before| && r < |after| && after[r] && !before[r]
  }

  ghost function Unseen(seen: seq<bool>): set<nat> {
    set r: nat | r < |seen| && !seen[r]
  }

  ghost predicate EdgesOk(edges: Edges, matched: seq<Partner>) {
    forall r :: 0 <= r < |matched| && matched[r].Taken? ==> IsEdge(edges, matched[r].left, r)
  }

  /** Unvisited right vertices never share a partner. */
  ghost predicate Distinct(matched: seq<Partner>, seen: seq<bool>) {
    && |matched| == |seen|
    && forall r, s | 0 <= r < |seen| && 0 <= s < |seen| ::
         !seen[r] && !seen[s] && matched[r].Taken? && matched[r] == matched[s] ==> r == s
  }

  ghost predicate Absent(matched: seq<Partner>, seen: seq<bool>, left: nat) {
    && |matched| == |seen|
    && forall r :: 0 <= r < |seen| && !seen[r] ==> matched[r] != Taken(left)
  }

  /** A successful search for `left` permutes partners among newly visited vertices, drops none
      of them, and gives `left` a place by using up one free vertex. */
  ghost predicate Augmented(edges: Edges, left: nat, seen0: seq<bool>, seen1: seq<bool>, m0: seq<Partner>,
          m1: seq<Partner>) {
    && |m0| == |m1| == |seen0|
    && Grows(seen0, seen1)
    && EdgesOk(edges, m1)
    && Distinct(m1, seen0)
    && (forall r :: 0 <= r < |m0| && !Newly(seen0, seen1, r) ==> m1[r] == m0[r])
    && (forall r {:trigger m1[r]} :: Newly(seen0, seen1, r) ==>
        m1[r] == Taken(left) || exists s :: Newly(seen0, seen1, s) && m0[s] == m1[r])
    && (exists q :: UsesUp(m0, m1, q))
  }

  ghost predicate UsesUp(m0: seq<Partner>, m1: seq<Partner>, q: nat) {
    && q < |m0| == |m1| && m0[q].Free? && m1[q].Taken?
    && forall r :: 0 <= r < |m0| && r != q ==> (m0[r].Taken? <==> m1[r].Taken?)
  }

  ghost predicate Covered(edges: Edges, left: nat, seen: seq<bool>) {
    forall r: nat :: IsEdge(edges, left, r) ==> r < |seen| && seen[r]
  }

  /** A failed search leaves only taken vertices visited, all closed under their partners' edges. */
  ghost predicate Closed(edges: Edges, seen0: seq<bool>, seen1: seq<bool>, m: seq<Partner>) {
    && |m| == |seen0|
    && Grows(seen0, seen1)
    && forall r :: Newly(seen0, seen1, r) ==> m[r].Taken? && Covered(edges, m[r].left, seen1)
  }

  lemma TakeFree(edges: Edges, left: nat, c: nat, seen0: seq<bool>, seenK: seq<bool>, m: seq<Partner>)
    requires c < |m| == |seen0| && Grows(seen0, seenK) && !seenK[c] && m[c].Free? && IsEdge(edges, left, c)
    requires EdgesOk(edges, m) && Distinct(m, seen0) && Absent(m, seen0, left)
    ensures Augmented(edges, left, seen0, seenK[c := true], m, m[c := Taken(left)])
  {
    var seen1, m1 := seenK[c := true], m[c := Taken(left)];
    assert UsesUp(m, m1, c);
    forall r | Newly(seen0, seen1, r)
      ensures m1[r] == Taken(left) || exists s :: Newly(seen0, seen1, s) && m[s] == m1[r]
    {
      assert r == c || m[r] == m1[r];
    }
  }

  lemma Reroute(edges: Edges, left: nat, c: nat, seen0: seq<bool>, seenK: seq<bool>, seen1: seq<bool>,
          m0: seq<Partner>, m1: seq<Partner>)
    requires c < |m0| == |seen0| && Grows(seen0, seenK) && !seenK[c] && m0[c].Taken? && IsEdge(edges, left, c)
    requires EdgesOk(edges, m0) && Distinct(m0, seen0) && Absent(m0, seen0, left)
    requires Augmented(edges, m0[c].left, seenK[c := true], seen1, m0, m1)
    ensures Augmented(edges, left, seen0, seen1, m0, m1[c := Taken(left)])
  {
    var seenC, m2, j := seenK[c := true], m1[c := Taken(left)], m0[c].left;
    assert forall r :: Newly(seenC, seen1, r) ==> Newly(seen0, seen1, r);
    assert Newly(seen0, seen1, c);
    var q: nat :| UsesUp(m0, m1, q);
    assert UsesUp(m0, m2, q);
    forall r | Newly(seen0, seen1, r)
      ensures m2[r] == Taken(left) || exists s :: Newly(seen0, seen1, s) && m0[s] == m2[r]
    {
      if r != c && Newly(seenC, seen1, r) {
        if m1[r] == Taken(j) { assert m0[c] == m2[r]; }
      } else if r != c {
        assert m0[r] == m2[r];
      }
    }
    forall r, s | 0 <= r < |seen0| && 0 <= s < |seen0| && !seen0[r] && !seen0[s] && m2[r].Taken? && m2[r] == m2[s]
      ensures r == s
    {
      RerouteKeepsOne(edges, left, c, seen0, seenK, seen1, m0, m1, r, s);
    }
  }

  lemma RerouteKeepsOne(edges: Edges, left: nat, c: nat, seen0: seq<bool>, seenK: seq<bool>, seen1: seq<bool>,
          m0: seq<Partner>, m1: seq<Partner>, r: nat, s: nat)
    requires c < |m0| == |seen0| && Grows(seen0, seenK) && !seenK[c] && m0[c].Taken?
    requires Distinct(m0, seen0) && Absent(m0, seen0, left)
    requires Augmented(edges, m0[c].left, seenK[c := true], seen1, m0, m1)
    requires r < |seen0| && s < |seen0| && !seen0[r] && !seen0[s]
    requires m1[c := Taken(left)][r].Taken? && m1[c := Taken(left)][r] == m1[c := Taken(left)][s]
    ensures r == s
  {
    var seenC, m2 := seenK[c := true], m1[c := Taken(left)];
    // Every partner other than at c stems from some unvisited vertex of m0.
    forall x | 0 <= x < |seen0| && !seen0[x] && x != c
      ensures exists y :: 0 <= y < |seen0| && !seen0[y] && m0[y] == m2[x]
                && (Newly(seenC, seen1, x) ==> y == c || Newly(seenC, seen1, y)) && (!Newly(seenC, seen1, x) ==> y == x)
    {
      if Newly(seenC, seen1, x) {
        if m1[x] == m0[c] { assert m0[c] == m2[x]; }
      } else {
        assert m0[x] == m2[x];
      }
    }
  }

  /** The recursive search of `augment`, marking visited right vertices in place. */
  method Augment(index: nat, edges: Edges, seen: array<bool>, matched: array<Partner>) returns (ok: bool)
    requires index < |edges| && WellFormed(edges, seen.Length) && matched.Length == seen.Length
    requires EdgesOk(edges, matched[..]) && Distinct(matched[..], seen[..]) && Absent(matched[..], seen[..], index)
    modifies seen, matched
    ensures ok ==> Augmented(edges, index, old(seen[..]), seen[..], old(matched[..]), matched[..])
    ensures !ok ==> matched[..] == old(matched[..])
    ensures !ok ==> Closed(edges, old(seen[..]), seen[..], matched[..]) && Covered(edges, index, seen[..])
    decreases Unseen(seen[..])
  {
    ghost var seen0, m0 := seen[..], matched[..];
    for k := 0 to |edges[index]|
      invariant matched[..] == m0
      invariant Closed(edges, seen0, seen[..], m0)
      invariant forall c :: 0 <= c < k ==> edges[index][c] < seen.Length && seen[edges[index][c]]
    {
      var candidate := edges[index][k];
      assert IsEdge(edges, index, candidate);
      if seen[candidate] {
        continue;
      }
      ghost var seenK := seen[..];
      seen[candidate] := true;
      assert seen[..] == seenK[candidate := true];
      if matched[candidate].Free? {
        TakeFree(edges, index, candidate, seen0, seenK, m0);
        matched[candidate] := Taken(index);
        assert matched[..] == m0[candidate := Taken(index)];
        return true;
      }
      assert candidate in Unseen(seen0) && candidate !in Unseen(seen[..]);
      assert IsEdge(edges, m0[candidate].left, candidate);
      var moved := Augment(matched[candidate].left, edges, seen, matched);
      if moved {
        Reroute(edges, index, candidate, seen0, seenK, seen[..], m0, matched[..]);
        ghost var m1 := matched[..];
        matched[candidate] := Taken(index);
        assert matched[..] == m1[candidate := Taken(index)];
        return true;
      }
      ExtendClosed(edges, candidate, seen0, seenK, seen[..], m0);
    }
    return false;
  }

  lemma ExtendClosed(edges: Edges, c: nat, seen0: seq<bool>, seenK: seq<bool>, seen1: seq<bool>, m: seq<Partner>)
    requires c < |m| == |seen0| && Closed(edges, seen0, seenK, m) && m[c].Taken? && |seenK| == |m|
    requires Closed(edges, seenK[c := true], seen1, m) && Covered(edges, m[c].left, seen1)
    ensures Closed(edges, seen0, seen1, m)
  {
    forall r | Newly(seen0, seen1, r)
      ensures m[r].Taken? && Covered(edges, m[r].left, seen1)
    {
      if r != c && !Newly(seenK[c := true], seen1, r) {
        assert Newly(seen0, seenK, r);
      }
    }
  }

  // ------------------------------------------------------------------
  // The count is maximum
  // ------------------------------------------------------------------

  /** The state between two searches: a matching of the first `bound` left vertices, as large as any. */
  ghost predicate Settled(edges: Edges, bound: nat, matched: seq<Partner>, count: nat) {
    && IsMatching(edges, bound, Pairs(matched))
    && |Pairs(matched)| == count
    && NoLarger(edges, bound, count)
  }

  ghost predicate NoLarger(edges: Edges, bound: nat, size: nat) {
    forall m :: IsMatching(edges, bound, m) ==> |m| <= size
  }

  lemma SizeOfKeys<K, V>(m: map<K, V>)
    ensures |m| == |m.Keys|
  {}

  lemma AugmentedIsMatching(edges: Edges, left: nat, seen0: seq<bool>, seen1: seq<bool>, m0: seq<Partner>,
          m1: seq<Partner>)
    requires left < |edges| && IsMatching(edges, left, Pairs(m0)) && |seen0| == |m0|
    requires forall r :: 0 <= r < |seen0| ==> !seen0[r]
    requires Augmented(edges, left, seen0, seen1, m0, m1)
    ensures IsMatching(edges, left + 1, Pairs(m1)) && |Pairs(m1)| == |Pairs(m0)| + 1
  {
    forall r: nat | r < |m1| && m1[r].Taken?
      ensures m1[r].left < left + 1
    {
      PartnerBelow(edges, left, seen0, seen1, m0, m1, r);
    }
    ArrayIsMatching(edges, left + 1, seen0, m1);
    OneMorePair(m0, m1);
  }

  lemma ArrayIsMatching(edges: Edges, bound: nat, seen: seq<bool>, matched: seq<Partner>)
    requires EdgesOk(edges, matched) && Distinct(matched, seen) && forall r :: 0 <= r < |seen| ==> !seen[r]
    requires forall r :: 0 <= r < |matched| && matched[r].Taken? ==> matched[r].left < bound
    ensures IsMatching(edges, bound, Pairs(matched))
  {}

  lemma OneMorePair(m0: seq<Partner>, m1: seq<Partner>)
    requires exists q :: UsesUp(m0, m1, q)
    ensures |Pairs(m1)| == |Pairs(m0)| + 1
  {
    var q: nat :| UsesUp(m0, m1, q);
    assert Pairs(m1).Keys == Pairs(m0).Keys + {q};
    SizeOfKeys(Pairs(m0));
    SizeOfKeys(Pairs(m1));
  }

  lemma PartnerBelow(edges: Edges, left: nat, seen0: seq<bool>, seen1: seq<bool>, m0: seq<Partner>, m1: seq<Partner>,
          r: nat)
    requires IsMatching(edges, left, Pairs(m0)) && Augmented(edges, left, seen0, seen1, m0, m1)
    requires r < |m1| && m1[r].Taken?
    ensures m1[r].left < left + 1
  {
    var source := if Newly(seen0, seen1, r) && m1[r] != Taken(left)
                  then var s :| Newly(seen0, seen1, s) && m0[s] == m1[r]; s
                  else r;
    assert m1[r] != Taken(left) ==> source in Pairs(m0) && Pairs(m0)[source] == m1[r].left;
  }

  lemma Bigger(edges: Edges, left: nat, seen0: seq<bool>, seen1: seq<bool>, m0: seq<Partner>, m1: seq<Partner>,
          count: nat)
    requires left < |edges| && Settled(edges, left, m0, count) && |seen0| == |m0|
    requires forall r :: 0 <= r < |seen0| ==> !seen0[r]
    requires Augmented(edges, left, seen0, seen1, m0, m1)
    ensures Settled(edges, left + 1, m1, count + 1)
  {
    AugmentedIsMatching(edges, left, seen0, seen1, m0, m1);
    forall m | IsMatching(edges, left + 1, m)
      ensures |m| <= count + 1
    {
      DropLeft(edges, left, m, count);
    }
  }

  // Without the pair of `left`, a matching of one more left vertex is a matching of the prefix.
  lemma DropLeft(edges: Edges, left: nat, m: map<nat, nat>, count: nat)
    requires NoLarger(edges, left, count) && IsMatching(edges, left + 1, m)
    ensures |m| <= count + 1
  {
    if q :| q in m && m[q] == left {
      var rest := m - {q};
      assert IsMatching(edges, left, rest);
      assert rest.Keys == m.Keys - {q};
      SizeOfKeys(m);
      SizeOfKeys(rest);
    } else {
      assert IsMatching(edges, left, m);
    }
  }

  lemma Stuck(edges: Edges, left: nat, seen0: seq<bool>, seen1: seq<bool>, m0: seq<Partner>, count: nat)
    requires left < |edges| && Settled(edges, left, m0, count) && |seen0| == |m0|
    requires forall r :: 0 <= r < |seen0| ==> !seen0[r]
    requires Closed(edges, seen0, seen1, m0) && Covered(edges, left, seen1)
    ensures Settled(edges, left + 1, m0, count)
  {
    assert IsMatching(edges, left + 1, Pairs(m0));
    forall m | IsMatching(edges, left + 1, m)
      ensures |m| <= count
    {
      Exchange(edges, left, seen0, seen1, m0, m, count);
    }
  }

  // Any matching of one more left vertex trades its visited right vertices for their current
  // partners, and so becomes a matching of the prefix that is at least as large.
  lemma Exchange(edges: Edges, left: nat, seen0: seq<bool>, seen1: seq<bool>, m0: seq<Partner>, m: map<nat, nat>,
          count: nat)
    requires left < |edges| && Settled(edges, left, m0, count) && |seen0| == |m0|
    requires forall r :: 0 <= r < |seen0| ==> !seen0[r]
    requires Closed(edges, seen0, seen1, m0) && Covered(edges, left, seen1)
    requires IsMatching(edges, left + 1, m)
    ensures |m| <= count
  {
    var visited := set r: nat | r < |seen1| && seen1[r];
    forall r <- visited
      ensures r in Pairs(m0) && Covered(edges, Pairs(m0)[r], seen1)
    {
      assert Newly(seen0, seen1, r);
    }
    var traded := Trade(edges, left, seen1, Pairs(m0), m, visited);
    Cardinality(m.Keys, traded.Keys);
    SizeOfKeys(traded);
    SizeOfKeys(m);
  }

  lemma Trade(edges: Edges, left: nat, seen: seq<bool>, p: map<nat, nat>, m: map<nat, nat>,
          visited: set<nat>) returns (traded: map<nat, nat>)
    requires IsMatching(edges, left, p) && IsMatching(edges, left + 1, m) && Covered(edges, left, seen)
    requires forall r: nat :: r in visited <==> r < |seen| && seen[r]
    requires forall r <- visited :: r in p && Covered(edges, p[r], seen)
    ensures IsMatching(edges, left, traded) && m.Keys <= traded.Keys
  {
    var kept := m - visited;
    traded := kept + map r | r in visited :: p[r];
    forall r <- kept
      ensures m[r] != left && forall s <- visited :: m[r] != p[s]
    {
      assert IsEdge(edges, m[r], r);
      assert !(r < |seen| && seen[r]);
    }
    forall r, s | r in traded && s in traded && traded[r] == traded[s]
      ensures r == s
    {}
  }

  lemma {:induction false} Cardinality<T>(a: set<T>, b: set<T>)
    requires a <= b
    ensures |a| <= |b|
  {
    if a != {} {
      var x :| x in a;
      Cardinality(a - {x}, b - {x});
    }
  }

  lemma NothingMatched(edges: Edges, matched: seq<Partner>)
    requires forall r :: 0 <= r < |matched| ==> matched[r].Free?
    ensures Settled(edges, 0, matched, 0)
  {
    assert Pairs(matched) == map[];
    forall m | IsMatching(edges, 0, m)
      ensures |m| <= 0
    {
      assert m == map[];
    }
  }

  lemma Ready(edges: Edges, left: nat, matched: seq<Partner>, seen: seq<bool>, count: nat)
    requires Settled(edges, left, matched, count) && |seen| == |matched|
    ensures EdgesOk(edges, matched) && Distinct(matched, seen) && Absent(matched, seen, left)
  {
    assert forall r :: 0 <= r < |matched| && matched[r].Taken? ==>
          r in Pairs(matched) && Pairs(matched)[r] == matched[r].left;
  }

  lemma SettledIsMaximum(edges: Edges, bound: nat, matched: seq<Partner>, count: nat)
    requires Settled(edges, bound, matched, count)
    ensures IsMaximum(edges, bound, count)
  {}

  /** The number of left vertices whose search succeeds is the size of a maximum matching. */
  method MaximumMatching(edges: Edges, rights: nat) returns (count: nat)
    requires WellFormed(edges, rights)
    ensures IsMaximum(edges, |edges|, count)
  {
    var matched := new Partner[rights](_ => Free);
    count := 0;
    NothingMatched(edges, matched[..]);
    for index := 0 to |edges|
      invariant Settled(edges, index, matched[..], count)
    {
      var ok := Round(index, edges, matched, count);
      if ok {
        count := count + 1;
      }
    }
    SettledIsMaximum(edges, |edges|, matched[..], count);
  }

  // One search from a fresh set of visited vertices.
  method Round(index: nat, edges: Edges, matched: array<Partner>, ghost count: nat) returns (ok: bool)
    requires index < |edges| && WellFormed(edges, matched.Length) && Settled(edges, index, matched[..], count)
    modifies matched
    ensures Settled(edges, index + 1, matched[..], if ok then count + 1 else count)
  {
    hide Settled, WellFormed, Augmented, Closed, Covered, EdgesOk, Distinct, Absent;
    var seen := new bool[matched.Length](_ => false);
    ghost var m0, seen0 := matched[..], seen[..];
    Ready(edges, index, m0, seen0, count);
    ok := Augment(index, edges, seen, matched);
    if ok {
      Bigger(edges, index, seen0, seen[..], m0, matched[..], count);
    } else {
      Stuck(edges, index, seen0, seen[..], m0, count);
    }
  }

  // ------------------------------------------------------------------
  // What the count means to the caller
  // ------------------------------------------------------------------

  ghost predicate CoversShorter(edges: Edges, rights: nat, m: map<nat, nat>) {
    && IsMatching(edges, |edges|, m)
    && (rights <= |edges| ==> forall r: nat :: r < rights ==> r in m)
    && (|edges| <= rights ==> forall i: nat :: i < |edges| ==> i in m.Values)
  }

  ghost function Below(n: nat): (s: set<nat>)
    ensures |s| == n && forall i: nat :: i in s <==> i < n
  {
    if n == 0 then {} else Below(n - 1) + {n - 1}
  }

  lemma ValuesWithout(m: map<nat, nat>, r: nat)
    requires r in m && forall s :: s in m && m[r] == m[s] ==> r == s
    ensures m.Values == (m - {r}).Values + {m[r]} && m[r] !in (m - {r}).Values
  {
    var rest := m - {r};
    forall v ensures v in m.Values <==> v in rest.Values + {m[r]} {
      if v in m.Values && v != m[r] {
        var s :| s in m && m[s] == v;
        assert s in rest && rest[s] == v;
      }
    }
  }

  lemma {:induction false} ValuesOfInjective(m: map<nat, nat>)
    requires forall r, s :: r in m && s in m && m[r] == m[s] ==> r == s
    ensures |m.Values| == |m|
  {
    if r :| r in m {
      var rest := m - {r};
      ValuesOfInjective(rest);
      SizeOfKeys(m);
      SizeOfKeys(rest);
      assert m.Keys == rest.Keys + {r};
      ValuesWithout(m, r);
    } else {
      assert m == map[];
    }
  }

  lemma SubsetOfSameSize<T>(a: set<T>, b: set<T>)
    requires a <= b && |a| >= |b|
    ensures a == b
  {
    Cardinality(a, b);
    assert b == a + (b - a);
    assert |b| == |a| + |b - a|;
  }

  /** The reported count falls short of the smaller side exactly when no injective pairing covers it. */
  lemma CountCoversShorter(edges: Edges, rights: nat, count: nat)
    requires WellFormed(edges, rights) && IsMaximum(edges, |edges|, count)
    ensures count < Min(|edges|, rights) <==> !exists m :: CoversShorter(edges, rights, m)
    ensures count <= Min(|edges|, rights)
  {
    var best :| IsMatching(edges, |edges|, best) && |best| == count;
    MatchingFits(edges, rights, best);
    if count == Min(|edges|, rights) {
      FullMatchingCovers(edges, rights, best);
    }
    if m :| CoversShorter(edges, rights, m) {
      CoverIsFull(edges, rights, m);
    }
  }

  function Min(a: nat, b: nat): nat { if a <= b then a else b }

  lemma MatchingFits(edges: Edges, rights: nat, m: map<nat, nat>)
    requires WellFormed(edges, rights) && IsMatching(edges, |edges|, m)
    ensures |m| <= Min(|edges|, rights) && m.Keys <= Below(rights) && m.Values <= Below(|edges|)
    ensures |m.Values| == |m| == |m.Keys|
  {
    ValuesOfInjective(m);
    SizeOfKeys(m);
    assert forall r <- m :: IsEdge(edges, m[r], r);
    Cardinality(m.Keys, Below(rights));
    Cardinality(m.Values, Below(|edges|));
  }

  lemma FullMatchingCovers(edges: Edges, rights: nat, m: map<nat, nat>)
    requires WellFormed(edges, rights) && IsMatching(edges, |edges|, m) && |m| == Min(|edges|, rights)
    ensures CoversShorter(edges, rights, m)
  {
    MatchingFits(edges, rights, m);
    AllOfThem(m.Keys, rights);
    AllOfThem(m.Values, |edges|);
  }

  lemma AllOfThem(s: set<nat>, n: nat)
    requires s <= Below(n)
    ensures |s| >= n ==> forall i: nat :: i < n ==> i in s
  {
    if |s| >= n {
      SubsetOfSameSize(s, Below(n));
    }
  }

  lemma CoverIsFull(edges: Edges, rights: nat, m: map<nat, nat>)
    requires WellFormed(edges, rights) && CoversShorter(edges, rights, m)
    ensures |m| == Min(|edges|, rights)
  {
    MatchingFits(edges, rights, m);
    if rights <= |edges| { Cardinality(Below(rights), m.Keys); } else { Cardinality(Below(|edges|), m.Values); }
  }
}

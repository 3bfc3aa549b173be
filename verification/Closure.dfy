/** Reference resolution: when the server's walk succeeds, what it lists, and that the client's
    resolver agrees with it. */
module Closure {
  import opened Wrappers
  import opened Identity
  import opened Store

  // ------------------------------------------------------------------
  // The walk fails exactly when something reachable is absent
  // ------------------------------------------------------------------

  ghost predicate Link(c: Catalogue, a: Reference, b: Reference) {
    Target(a) in c && b in c[Target(a)].references
  }

  ghost predicate IsPath(c: Catalogue, from: seq<Reference>, path: seq<Reference>) {
    && path != [] && path[0] in from
    && forall i, j :: 0 <= i < |path| && j == i + 1 && j < |path| ==> Link(c, path[i], path[j])
  }

  ghost predicate Reaches(c: Catalogue, from: seq<Reference>, key: Pair) {
    exists path :: IsPath(c, from, path) && Target(path[|path| - 1]) == key
  }

  /** A pair that is reached from its own schema. */
  ghost predicate OnCycle(c: Catalogue, key: Pair) { key in c && Reaches(c, c[key].references, key) }

  ghost predicate Closed(c: Catalogue, keys: set<Pair>, key: Pair) {
    key in c && forall r <- c[key].references :: Target(r) in keys
  }

  lemma {:induction false} WalkCovers(c: Catalogue, references: seq<Reference>, w: Walk)
    requires ResolveInto(c, references, w).Ok?
    ensures var v := ResolveInto(c, references, w).value;
            && (forall r <- references :: Target(r) in v.visited)
            && forall key <- v.visited :: key in w.visited || Closed(c, v.visited, key)
    decreases |c.Keys - w.visited|, |references|
  {
    if references != [] {
      var r, rest := references[0], references[1..];
      if Target(r) in w.visited {
        WalkCovers(c, rest, w);
      } else {
        var schema := c[Target(r)];
        FewerLeft(c.Keys, w.visited, Target(r), w.visited + {Target(r)});
        WalkCovers(c, schema.references, w.(visited := w.visited + {Target(r)}));
        var inner := ResolveInto(c, schema.references, w.(visited := w.visited + {Target(r)})).value;
        FewerLeft(c.Keys, w.visited, Target(r), inner.visited);
        WalkCovers(c, rest, Emit(inner, r, schema));
        var v := ResolveInto(c, references, w).value;
        forall key <- inner.visited
          ensures key in w.visited || Closed(c, v.visited, key)
        {
          assert Target(r) == key || key in w.visited || Closed(c, inner.visited, key);
        }
      }
    }
  }

  lemma StepReaches(c: Catalogue, from: seq<Reference>, key: Pair, q: Reference)
    requires Reaches(c, from, key) && key in c && q in c[key].references
    ensures Reaches(c, from, Target(q))
  {
    var path :| IsPath(c, from, path) && Target(path[|path| - 1]) == key;
    var longer := path + [q];
    assert forall i :: 0 <= i < |path| ==> longer[i] == path[i];
    assert Link(c, longer[|path| - 1], longer[|path|]);
    assert IsPath(c, from, longer) && Target(longer[|longer| - 1]) == Target(q);
  }

  // Every visited key is reachable, and a failed walk ends at a reachable, absent reference.
  lemma {:induction false} WalkReaches(c: Catalogue, top: seq<Reference>, references: seq<Reference>, w: Walk)
    requires forall r <- references :: Reaches(c, top, Target(r))
    requires forall key <- w.visited :: Reaches(c, top, key)
    ensures match ResolveInto(c, references, w)
            case Ok(v) => forall key <- v.visited :: Reaches(c, top, key)
            case Err(r) => Reaches(c, top, Target(r)) && Target(r) !in c
    decreases |c.Keys - w.visited|, |references|
  {
    if references != [] {
      var r, rest := references[0], references[1..];
      assert references == [r] + rest;
      if Target(r) in w.visited {
        WalkReaches(c, top, rest, w);
      } else if Target(r) in c {
        var schema := c[Target(r)];
        FewerLeft(c.Keys, w.visited, Target(r), w.visited + {Target(r)});
        forall q <- schema.references ensures Reaches(c, top, Target(q)) { StepReaches(c, top, Target(r), q); }
        WalkReaches(c, top, schema.references, w.(visited := w.visited + {Target(r)}));
        var inner := ResolveInto(c, schema.references, w.(visited := w.visited + {Target(r)}));
        if inner.Ok? {
          FewerLeft(c.Keys, w.visited, Target(r), inner.value.visited);
          WalkReaches(c, top, rest, Emit(inner.value, r, schema));
        }
      }
    }
  }

  lemma RootsReached(c: Catalogue, references: seq<Reference>)
    ensures forall r <- references :: Reaches(c, references, Target(r))
  {
    forall r <- references
      ensures Reaches(c, references, Target(r))
    {
      assert IsPath(c, references, [r]) && Target([r][|[r]| - 1]) == Target(r);
    }
  }

  lemma {:induction false} PathStaysInside(c: Catalogue, from: seq<Reference>, keys: set<Pair>, path: seq<Reference>,
          i: nat)
    requires IsPath(c, from, path) && i < |path| && (forall r <- from :: Target(r) in keys)
    requires forall key <- keys :: Closed(c, keys, key)
    ensures Target(path[i]) in keys
  {
    if i > 0 {
      PathStaysInside(c, from, keys, path, i - 1);
      assert Closed(c, keys, Target(path[i - 1]));
    }
  }

  lemma ReachedIsVisited(c: Catalogue, references: seq<Reference>, key: Pair)
    requires ResolveInto(c, references, START).Ok? && Reaches(c, references, key)
    ensures key in ResolveInto(c, references, START).value.visited && key in c
  {
    WalkCovers(c, references, START);
    var keys := ResolveInto(c, references, START).value.visited;
    assert forall k <- keys :: Closed(c, keys, k);
    var path :| IsPath(c, references, path) && Target(path[|path| - 1]) == key;
    PathStaysInside(c, references, keys, path, |path| - 1);
    assert Closed(c, keys, key);
  }

  /** `resolve_closure` fails on exactly the stores where some reachable (subject, version) is
      absent, cyclic stores included. */
  lemma ClosureFailsIffMissing(c: Catalogue, references: seq<Reference>)
    ensures ResolveInto(c, references, START).Err? <==> exists key :: Reaches(c, references, key) && key !in c
  {
    RootsReached(c, references);
    WalkReaches(c, references, references, START);
    if ResolveInto(c, references, START).Ok? {
      forall key | Reaches(c, references, key)
        ensures key in c
      {
        ReachedIsVisited(c, references, key);
      }
    }
  }

  /** A store that shows the same schemas at every visited pair resolves to the same closure. */
  lemma {:induction false} WalkStable(c: Catalogue, t: Catalogue, references: seq<Reference>, w: Walk)
    requires ResolveInto(c, references, w).Ok?
    requires forall key <- ResolveInto(c, references, w).value.visited :: key in c ==> key in t && t[key] == c[key]
    ensures ResolveInto(t, references, w) == ResolveInto(c, references, w)
    decreases |c.Keys - w.visited|, |references|
  {
    if references != [] {
      var r, rest := references[0], references[1..];
      if Target(r) in w.visited {
        WalkStable(c, t, rest, w);
      } else {
        var schema := c[Target(r)];
        FewerLeft(c.Keys, w.visited, Target(r), w.visited + {Target(r)});
        var inner := ResolveInto(c, schema.references, w.(visited := w.visited + {Target(r)})).value;
        FewerLeft(c.Keys, w.visited, Target(r), inner.visited);
        WalkStable(c, t, rest, Emit(inner, r, schema));
        WalkStable(c, t, schema.references, w.(visited := w.visited + {Target(r)}));
      }
    }
  }

  // ------------------------------------------------------------------
  // Order of an acyclic closure
  // ------------------------------------------------------------------

  /** Within `scope`, names and (subject, version) pairs correspond one to one. */
  ghost predicate Labelled(c: Catalogue, references: seq<Reference>, scope: set<Pair>, nameOf: Pair -> string) {
    && (forall r <- references :: Target(r) in scope && r.name == nameOf(Target(r)))
    && (forall a, b :: a in scope && b in scope && nameOf(a) == nameOf(b) ==> a == b)
    && forall key <- scope :: key in c ==>
         forall r <- c[key].references :: Target(r) in scope && r.name == nameOf(Target(r))
  }

  ghost predicate Acyclic(c: Catalogue, scope: set<Pair>) { forall key <- scope :: !OnCycle(c, key) }

  /** `rank` falls along every reference inside `scope`. */
  ghost predicate Ranked(c: Catalogue, scope: set<Pair>, rank: Pair -> nat) {
    forall key <- scope :: key in c ==> forall r <- c[key].references :: rank(Target(r)) < rank(key)
  }

  // A path from references, and one from the schema that it ends at.
  lemma PathConcat(c: Catalogue, from: seq<Reference>, a: seq<Reference>, b: seq<Reference>)
    requires IsPath(c, from, a) && Target(a[|a| - 1]) in c && IsPath(c, c[Target(a[|a| - 1])].references, b)
    ensures IsPath(c, from, a + b) && Target((a + b)[|a + b| - 1]) == Target(b[|b| - 1])
  {
    var path := a + b;
    forall i, j | 0 <= i < |path| && j == i + 1 && j < |path| ensures Link(c, path[i], path[j]) {
      if j < |a| {
        assert Link(c, a[i], a[j]);
      } else if i >= |a| {
        assert Link(c, b[i - |a|], b[j - |a|]);
      }
    }
  }

  ghost function Below(c: Catalogue, key: Pair): seq<Reference> { if key in c then c[key].references else [] }

  ghost function ReachedCount(c: Catalogue, scope: set<Pair>): Pair -> nat {
    (key: Pair) => |set k <- scope | Reaches(c, Below(c, key), k)|
  }

  lemma {:induction false} PathFalls(c: Catalogue, scope: set<Pair>, rank: Pair -> nat, key: Pair,
          path: seq<Reference>, i: nat)
    requires ClosedUnder(c, scope) && Ranked(c, scope, rank) && key in scope && key in c
    requires IsPath(c, c[key].references, path) && i < |path|
    ensures Target(path[i]) in scope && rank(Target(path[i])) < rank(key)
  {
    if i > 0 {
      PathFalls(c, scope, rank, key, path, i - 1);
      assert Link(c, path[i - 1], path[i]);
    }
  }

  ghost predicate ClosedUnder(c: Catalogue, scope: set<Pair>) {
    forall key <- scope, r | key in c && r in c[key].references :: Target(r) in scope
  }

  lemma NoCycle(c: Catalogue, scope: set<Pair>, rank: Pair -> nat, key: Pair)
    requires ClosedUnder(c, scope) && Ranked(c, scope, rank) && key in scope
    ensures !OnCycle(c, key)
  {
    if OnCycle(c, key) {
      var path :| IsPath(c, c[key].references, path) && Target(path[|path| - 1]) == key;
      PathFalls(c, scope, rank, key, path, |path| - 1);
    }
  }

  lemma ReachedFewer(c: Catalogue, scope: set<Pair>, key: Pair, r: Reference)
    requires Acyclic(c, scope) && key in c && r in c[key].references && Target(r) in scope
    ensures ReachedCount(c, scope)(Target(r)) < ReachedCount(c, scope)(key)
  {
    hide Reaches;
    var a, b := (set k <- scope | Reaches(c, Below(c, Target(r)), k)), (set k <- scope | Reaches(c, Below(c, key), k));
    RootsReached(c, c[key].references);
    forall k <- a ensures k in b { BelowReaches(c, key, r, k); }
    NothingReached(c, Target(r));
    assert Target(r) in b && Target(r) !in a;
    assert b == a + (b - a) && Target(r) in b - a;
  }

  lemma NothingReached(c: Catalogue, key: Pair)
    requires !OnCycle(c, key)
    ensures !Reaches(c, Below(c, key), key)
  {}

  lemma BelowReaches(c: Catalogue, key: Pair, r: Reference, k: Pair)
    requires key in c && r in c[key].references && Reaches(c, Below(c, Target(r)), k)
    ensures Reaches(c, Below(c, key), k)
  {
    var path :| IsPath(c, Below(c, Target(r)), path) && Target(path[|path| - 1]) == k;
    assert IsPath(c, c[key].references, [r]);
    PathConcat(c, c[key].references, [r], path);
  }

  // A pair on a cycle starts paths of every length.
  lemma {:induction false} LongPaths(c: Catalogue, key: Pair, n: nat) returns (path: seq<Reference>)
    requires OnCycle(c, key)
    ensures IsPath(c, c[key].references, path) && |path| > n && Target(path[|path| - 1]) == key
  {
    path :| IsPath(c, c[key].references, path) && Target(path[|path| - 1]) == key;
    if n > 0 {
      var more := LongPaths(c, key, n - 1);
      PathConcat(c, c[key].references, path, more);
      path := path + more;
    }
  }

  /** A rank exists exactly when no pair is reached from its own schema. */
  lemma RankedIffAcyclic(c: Catalogue, scope: set<Pair>)
    requires ClosedUnder(c, scope)
    ensures (exists rank :: Ranked(c, scope, rank)) <==> Acyclic(c, scope)
  {
    if rank :| Ranked(c, scope, rank) {
      forall key <- scope ensures !OnCycle(c, key) { NoCycle(c, scope, rank, key); }
    }
    if Acyclic(c, scope) {
      hide Acyclic, ReachedCount;
      forall key <- scope, r | key in c && r in c[key].references
        ensures ReachedCount(c, scope)(Target(r)) < ReachedCount(c, scope)(key)
      {
        ReachedFewer(c, scope, key, r);
      }
      assert Ranked(c, scope, ReachedCount(c, scope));
    }
  }

  ghost predicate ListedBefore(out: seq<Resolved>, name: string, i: int) {
    exists j :: 0 <= j < i && j < |out| && out[j].name == name
  }

  /** The list shows exactly the finished pairs, each once, after everything it refers to. */
  ghost predicate Tidy(c: Catalogue, scope: set<Pair>, nameOf: Pair -> string, w: Walk, stack: set<Pair>) {
    && stack <= w.visited <= scope
    && (forall i, j :: 0 <= i < j < |w.out| ==> w.out[i].name != w.out[j].name)
    && (forall name :: name in w.names <==> ListedBefore(w.out, name, |w.out|))
    && (forall key <- scope :: nameOf(key) in w.names <==> key in w.visited && key !in stack)
    && forall i, key :: 0 <= i < |w.out| && key in scope && nameOf(key) == w.out[i].name ==> Placed(c, w.out, i, key)
  }

  ghost predicate Placed(c: Catalogue, out: seq<Resolved>, i: nat, key: Pair)
    requires i < |out|
  {
    && key in c && out[i].text == c[key].text && out[i].ty == c[key].ty
    && forall r <- c[key].references :: ListedBefore(out, r.name, i)
  }

  lemma EmitTidy(c: Catalogue, scope: set<Pair>, nameOf: Pair -> string, w: Walk, stack: set<Pair>, r: Reference,
          schema: Schema)
    requires Tidy(c, scope, nameOf, w, stack + {Target(r)}) && Labelled(c, [r], scope, nameOf) && Target(r) !in stack
    requires Target(r) in c && c[Target(r)] == schema && forall q <- schema.references :: q.name in w.names
    ensures Tidy(c, scope, nameOf, Emit(w, r, schema), stack)
  {
    var e := Emit(w, r, schema);
    assert r in [r];
    assert r.name !in w.names;
    assert e.out[|w.out|].name == r.name;
    forall name
      ensures name in e.names <==> ListedBefore(e.out, name, |e.out|)
    {
      if ListedBefore(w.out, name, |w.out|) { ListedOn(w.out, e.out, name, |w.out|, |e.out|); }
    }
    forall i, key | 0 <= i < |e.out| && key in scope && nameOf(key) == e.out[i].name
      ensures Placed(c, e.out, i, key)
    {
      if i < |w.out| {
        assert Placed(c, w.out, i, key);
        forall q <- c[key].references ensures ListedBefore(e.out, q.name, i) { ListedOn(w.out, e.out, q.name, i, i); }
      } else {
        forall q <- schema.references ensures ListedBefore(e.out, q.name, i) {
          ListedOn(w.out, e.out, q.name, |w.out|, i);
        }
      }
    }
  }

  lemma ListedOn(a: seq<Resolved>, b: seq<Resolved>, name: string, i: int, j: int)
    requires a <= b && ListedBefore(a, name, i) && i <= j
    ensures ListedBefore(b, name, j)
  {
    var k :| 0 <= k < i && k < |a| && a[k].name == name;
    assert b[k].name == name;
  }

  // A pair below everything on the stack is listed already, or not visited at all.
  lemma PushTidy(c: Catalogue, scope: set<Pair>, nameOf: Pair -> string, rank: Pair -> nat, w: Walk, stack: set<Pair>,
          r: Reference)
    requires Tidy(c, scope, nameOf, w, stack) && Labelled(c, [r], scope, nameOf)
    requires forall key <- stack :: rank(Target(r)) < rank(key)
    ensures Target(r) in w.visited ==> r.name in w.names
    ensures Target(r) !in w.visited ==>
          Tidy(c, scope, nameOf, w.(visited := w.visited + {Target(r)}), stack + {Target(r)})
    ensures Target(r) !in stack
  {
    assert r in [r];
  }

  lemma {:induction false} WalkTidy(c: Catalogue, scope: set<Pair>, nameOf: Pair -> string, rank: Pair -> nat,
          references: seq<Reference>, w: Walk, stack: set<Pair>)
    requires Labelled(c, references, scope, nameOf) && Ranked(c, scope, rank) && Tidy(c, scope, nameOf, w, stack)
    requires ResolveInto(c, references, w).Ok?
    requires forall key <- stack, r <- references :: rank(Target(r)) < rank(key)
    ensures Tidy(c, scope, nameOf, ResolveInto(c, references, w).value, stack)
    ensures forall r <- references :: r.name in ResolveInto(c, references, w).value.names
    ensures w.names <= ResolveInto(c, references, w).value.names
    decreases |c.Keys - w.visited|, |references|
  {
    if references != [] {
      var r, rest := references[0], references[1..];
      assert references == [r] + rest;
      PushTidy(c, scope, nameOf, rank, w, stack, r);
      var next := w;
      if Target(r) !in w.visited {
        var schema, below := c[Target(r)], w.(visited := w.visited + {Target(r)});
        FewerLeft(c.Keys, w.visited, Target(r), below.visited);
        WalkTidy(c, scope, nameOf, rank, schema.references, below, stack + {Target(r)});
        var inner := ResolveInto(c, schema.references, below).value;
        FewerLeft(c.Keys, w.visited, Target(r), inner.visited);
        EmitTidy(c, scope, nameOf, inner, stack, r, schema);
        next := Emit(inner, r, schema);
      }
      WalkTidy(c, scope, nameOf, rank, rest, next, stack);
    }
  }

  /** An acyclic closure lists every reachable pair exactly once, with its schema, after
      everything it refers to. */
  lemma ClosureIsOrdered(c: Catalogue, references: seq<Reference>, scope: set<Pair>, nameOf: Pair -> string)
    requires Labelled(c, references, scope, nameOf) && Acyclic(c, scope) && ResolveInto(c, references, START).Ok?
    ensures var out := ResolveInto(c, references, START).value.out;
            && (forall i, j :: 0 <= i < j < |out| ==> out[i].name != out[j].name)
            && (forall key <- scope :: ListedBefore(out, nameOf(key), |out|) <==> Reaches(c, references, key))
            && forall i, key :: 0 <= i < |out| && key in scope && nameOf(key) == out[i].name ==> Placed(c, out, i, key)
  {
    hide Acyclic;
    assert Tidy(c, scope, nameOf, START, {});
    RankedIffAcyclic(c, scope);
    var rank :| Ranked(c, scope, rank);
    WalkTidy(c, scope, nameOf, rank, references, START, {});
    RootsReached(c, references);
    WalkReaches(c, references, references, START);
    forall key | key in scope && Reaches(c, references, key)
      ensures key in ResolveInto(c, references, START).value.visited
    {
      ReachedIsVisited(c, references, key);
    }
  }
}

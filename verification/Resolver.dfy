/** The serializer's name-keyed reference resolver, and its agreement with the server's walk. */
module Resolver {
  import opened Wrappers
  import opened Identity
  import opened Store
  import opened Closure

  const MAX_REFERENCE_DEPTH: nat := 64

  datatype ResolveError = TooDeep | Cyclic(key: Pair) | NotFetched(key: Pair)

  datatype Sources = Sources(texts: map<string, string>, order: seq<string>)

  const NOTHING: Sources := Sources(map[], [])

  function Record(s: Sources, name: string, text: string): Sources {
    Sources(s.texts[name := text], s.order + [name])
  }

  /** What the recursive resolver makes of `references`. A fetch of (subject, version) with
      `deleted=true` answers from the same catalogue as the server's walk. */
  function Resolve(c: Catalogue, references: seq<Reference>, s: Sources, resolving: set<Pair>,
          depth: nat): Result<Sources, ResolveError>
    decreases MAX_REFERENCE_DEPTH - depth, |references|
  {
    if depth >= MAX_REFERENCE_DEPTH then Err(TooDeep) else ResolveList(c, references, s, resolving, depth)
  }

  function ResolveList(c: Catalogue, references: seq<Reference>, s: Sources, resolving: set<Pair>,
          depth: nat): Result<Sources, ResolveError>
    requires depth < MAX_REFERENCE_DEPTH
    decreases MAX_REFERENCE_DEPTH - depth, |references|, 0
  {
    if references == [] then Ok(s)
    else
      var r, rest := references[0], references[1..];
      if r.name in s.texts then ResolveList(c, rest, s, resolving, depth)
      else if Target(r) in resolving then Err(Cyclic(Target(r)))
      else if Target(r) !in c then Err(NotFetched(Target(r)))
      else
        var inner := Resolve(c, c[Target(r)].references, s, resolving + {Target(r)}, depth + 1);
        if inner.Err? then inner
        else ResolveList(c, rest, Record(inner.value, r.name, c[Target(r)].text), resolving, depth)
  }

  /** The state of one recursive resolution: sources, their order, and the pairs being resolved. */
  class ReferenceResolver {
    const registry: Catalogue
    var texts: map<string, string>
    var order: seq<string>
    var resolving: set<Pair>

    constructor (registry: Catalogue)
      ensures this.registry == registry && View() == NOTHING && resolving == {}
    {
      this.registry := registry;
      texts, order, resolving := map[], [], {};
    }

    function View(): Sources
      reads this
    {
      Sources(texts, order)
    }

    method ResolveSources(references: seq<Reference>, depth: nat) returns (error: Option<ResolveError>)
      modifies this
      ensures match Resolve(registry, references, old(View()), old(resolving), depth)
              case Ok(s) => error == None && View() == s && resolving == old(resolving)
              case Err(e) => error == Some(e)
      decreases MAX_REFERENCE_DEPTH - depth
    {
      if depth >= MAX_REFERENCE_DEPTH {
        return Some(TooDeep);
      }
      for i := 0 to |references|
        invariant resolving == old(resolving)
        invariant ResolveList(registry, references, old(View()), resolving, depth)
               == ResolveList(registry, references[i..], View(), resolving, depth)
      {
        var reference := references[i];
        assert references[i..][0] == reference && references[i..][1..] == references[i + 1..];
        if reference.name in texts {
          continue;
        }
        var key := Target(reference);
        if key in resolving {
          return Some(Cyclic(key));
        }
        resolving := resolving + {key};
        if key !in registry {
          return Some(NotFetched(key));
        }
        var failed := ResolveSources(registry[key].references, depth + 1);
        if failed.Some? {
          return failed;
        }
        resolving := resolving - {key};
        texts := texts[reference.name := registry[key].text];
        order := order + [reference.name];
      }
      return None;
    }
  }

  // ------------------------------------------------------------------
  // Agreement with the server
  // ------------------------------------------------------------------

  function Names(out: seq<Resolved>): seq<string> { seq(|out|, i requires 0 <= i < |out| => out[i].name) }

  /** The client's sources and the server's walk show the same finished pairs. */
  ghost predicate Agree(scope: set<Pair>, nameOf: Pair -> string, s: Sources, resolving: set<Pair>, w: Walk) {
    && s.order == Names(w.out) && s.texts.Keys == w.names
    && (forall i :: 0 <= i < |w.out| ==> w.out[i].name in s.texts && s.texts[w.out[i].name] == w.out[i].text)
    && resolving <= w.visited <= scope
    && forall key <- scope :: nameOf(key) in s.texts <==> key in w.visited && key !in resolving
  }

  lemma AgreeEmits(scope: set<Pair>, nameOf: Pair -> string, s: Sources, resolving: set<Pair>, w: Walk, r: Reference,
          schema: Schema)
    requires Agree(scope, nameOf, s, resolving + {Target(r)}, w) && Target(r) !in resolving && Target(r) in scope
    requires r.name == nameOf(Target(r))
    requires forall a, b :: a in scope && b in scope && nameOf(a) == nameOf(b) ==> a == b
    ensures Agree(scope, nameOf, Record(s, r.name, schema.text), resolving, Emit(w, r, schema))
  {
    var e := Emit(w, r, schema);
    assert r.name !in w.names;
    assert Names(e.out) == Names(w.out) + [r.name];
    assert forall i :: 0 <= i < |w.out| ==> e.out[i] == w.out[i] && w.out[i].name in w.names;
  }

  lemma {:induction false} ResolveAgrees(c: Catalogue, scope: set<Pair>, nameOf: Pair -> string,
          references: seq<Reference>, s: Sources, resolving: set<Pair>, depth: nat, w: Walk)
    requires Labelled(c, references, scope, nameOf) && Agree(scope, nameOf, s, resolving, w)
    requires Resolve(c, references, s, resolving, depth).Ok?
    ensures ResolveInto(c, references, w).Ok?
    ensures Agree(scope, nameOf, Resolve(c, references, s, resolving, depth).value, resolving,
            ResolveInto(c, references, w).value)
    decreases MAX_REFERENCE_DEPTH - depth, |references|
  {
    if references != [] {
      var r, rest := references[0], references[1..];
      assert references == [r] + rest;
      if r.name in s.texts {
        ResolveAgrees(c, scope, nameOf, rest, s, resolving, depth, w);
      } else {
        var schema := c[Target(r)];
        var below := w.(visited := w.visited + {Target(r)});
        ResolveAgrees(c, scope, nameOf, schema.references, s, resolving + {Target(r)}, depth + 1, below);
        var s1 := Resolve(c, schema.references, s, resolving + {Target(r)}, depth + 1).value;
        var w1 := ResolveInto(c, schema.references, below).value;
        AgreeEmits(scope, nameOf, s1, resolving, w1, r, schema);
        ResolveAgrees(c, scope, nameOf, rest, Record(s1, r.name, schema.text), resolving, depth, Emit(w1, r, schema));
      }
    }
  }

  /** Whenever the client resolves, the server resolves too, to the same names in the same order
      with the same texts. */
  lemma ClientAgreesWithServer(c: Catalogue, scope: set<Pair>, nameOf: Pair -> string, references: seq<Reference>)
    requires Labelled(c, references, scope, nameOf) && Resolve(c, references, NOTHING, {}, 0).Ok?
    ensures ResolveInto(c, references, START).Ok?
    ensures var s, out := Resolve(c, references, NOTHING, {}, 0).value, ResolveInto(c, references, START).value.out;
            s.order == Names(out) && forall i :: 0 <= i < |out| ==>
                out[i].name in s.texts && s.texts[out[i].name] == out[i].text
  {
    ResolveAgrees(c, scope, nameOf, references, NOTHING, {}, 0, START);
  }

  // No path that starts with these references is too long for the client at this depth.
  ghost predicate Shallow(c: Catalogue, references: seq<Reference>, depth: nat) {
    forall path :: IsPath(c, references, path) ==> depth + |path| < MAX_REFERENCE_DEPTH
  }

  // The pairs being resolved lead to the references.
  ghost predicate Open(c: Catalogue, resolving: set<Pair>, references: seq<Reference>) {
    forall key <- resolving, r <- references :: key in c && Reaches(c, c[key].references, Target(r))
  }

  lemma ShallowBelow(c: Catalogue, references: seq<Reference>, depth: nat, r: Reference)
    requires Shallow(c, references, depth) && r in references && Target(r) in c
    ensures Shallow(c, c[Target(r)].references, depth + 1) && depth + 1 < MAX_REFERENCE_DEPTH
  {
    assert IsPath(c, references, [r]);
    forall path | IsPath(c, c[Target(r)].references, path) ensures depth + 1 + |path| < MAX_REFERENCE_DEPTH {
      PathConcat(c, references, [r], path);
      assert IsPath(c, references, [r] + path);
    }
  }

  lemma OpenBelow(c: Catalogue, resolving: set<Pair>, references: seq<Reference>, r: Reference)
    requires Open(c, resolving, references) && r in references && Target(r) in c
    ensures Open(c, resolving + {Target(r)}, c[Target(r)].references)
  {
    hide Reaches;
    RootsReached(c, c[Target(r)].references);
    forall key <- resolving, q <- c[Target(r)].references ensures Reaches(c, c[key].references, Target(q)) {
      StepReaches(c, c[key].references, Target(r), q);
    }
  }

  lemma ShallowIsAcyclic(c: Catalogue, resolving: set<Pair>, references: seq<Reference>, depth: nat, r: Reference)
    requires Open(c, resolving, references) && Shallow(c, references, depth) && r in references && Target(r) in c
    ensures Target(r) !in resolving
  {
    if Target(r) in resolving {
      ShallowBelow(c, references, depth, r);
      var path := LongPaths(c, Target(r), MAX_REFERENCE_DEPTH);
    }
  }

  lemma ShallowRest(c: Catalogue, references: seq<Reference>, depth: nat)
    requires Shallow(c, references, depth) && references != []
    ensures Shallow(c, references[1..], depth)
  {
    forall path | IsPath(c, references[1..], path) ensures depth + |path| < MAX_REFERENCE_DEPTH {
      assert IsPath(c, references, path);
    }
  }

  lemma OpenRest(c: Catalogue, resolving: set<Pair>, references: seq<Reference>)
    requires Open(c, resolving, references) && references != []
    ensures Open(c, resolving, references[1..])
  {
    hide Reaches;
    forall key <- resolving, r <- references[1..] ensures key in c && Reaches(c, c[key].references, Target(r)) {
      assert r in references;
    }
  }

  /** The client does resolve every closure of present pairs in which no path of references is longer
      than its limit allows: in particular, none is cyclic. */
  lemma {:induction false} ClientResolvesShallow(c: Catalogue, scope: set<Pair>, references: seq<Reference>,
          s: Sources, resolving: set<Pair>, depth: nat)
    requires scope <= c.Keys && ClosedUnder(c, scope) && forall r <- references :: Target(r) in scope
    requires depth < MAX_REFERENCE_DEPTH && Shallow(c, references, depth) && Open(c, resolving, references)
    ensures Resolve(c, references, s, resolving, depth).Ok?
    decreases MAX_REFERENCE_DEPTH - depth, |references|
  {
    hide Shallow, Open;
    if references != [] {
      var r, rest := references[0], references[1..];
      assert references == [r] + rest;
      var next := s;
      ShallowIsAcyclic(c, resolving, references, depth, r);
      if r.name !in s.texts {
        var schema := c[Target(r)];
        ShallowBelow(c, references, depth, r);
        OpenBelow(c, resolving, references, r);
        ClientResolvesShallow(c, scope, schema.references, s, resolving + {Target(r)}, depth + 1);
        next := Record(Resolve(c, schema.references, s, resolving + {Target(r)}, depth + 1).value, r.name, schema.text);
      }
      ShallowRest(c, references, depth);
      OpenRest(c, resolving, references);
      ClientResolvesShallow(c, scope, rest, next, resolving, depth);
    }
  }

  // ------------------------------------------------------------------
  // The depth limit
  // ------------------------------------------------------------------

  /** Following the first reference of each schema ends after `n` schemas, all of them present. */
  predicate Ends(c: Catalogue, references: seq<Reference>, n: nat)
    decreases n
  {
    if references == [] then n == 0
    else n > 0 && Target(references[0]) in c && Ends(c, c[Target(references[0])].references, n - 1)
  }

  /** What the client resolves has first references that end below its limit: no name is known on the way down. */
  lemma {:induction false} FirstReferencesEnd(c: Catalogue, references: seq<Reference>, resolving: set<Pair>,
          depth: nat) returns (n: nat)
    requires Resolve(c, references, NOTHING, resolving, depth).Ok?
    ensures Ends(c, references, n) && depth + n < MAX_REFERENCE_DEPTH
    decreases MAX_REFERENCE_DEPTH - depth
  {
    n := 0;
    if references != [] {
      var t := Target(references[0]);
      var below := FirstReferencesEnd(c, c[t].references, resolving + {t}, depth + 1);
      n := below + 1;
    }
  }

  lemma {:induction false} EndsOnce(c: Catalogue, references: seq<Reference>, m: nat, n: nat)
    requires Ends(c, references, m) && Ends(c, references, n)
    ensures m == n
    decreases m
  {
    if references != [] { EndsOnce(c, c[Target(references[0])].references, m - 1, n - 1); }
  }

  // The pairs being resolved are further from the end.
  ghost predicate Behind(c: Catalogue, resolving: set<Pair>, n: nat) {
    forall key <- resolving :: key in c && exists m: nat :: m >= n && Ends(c, c[key].references, m)
  }

  lemma {:induction false} ChainResolves(c: Catalogue, references: seq<Reference>, resolving: set<Pair>, depth: nat,
          n: nat)
    requires |references| <= 1 && (forall key <- c :: |c[key].references| <= 1)
    requires Ends(c, references, n) && depth + n < MAX_REFERENCE_DEPTH && Behind(c, resolving, n)
    ensures Resolve(c, references, NOTHING, resolving, depth).Ok?
    decreases n
  {
    if references != [] {
      var t := Target(references[0]);
      if t in resolving {
        var m: nat :| m >= n && Ends(c, c[t].references, m);
        EndsOnce(c, c[t].references, m, n - 1);
      }
      assert Behind(c, resolving + {t}, n - 1);
      ChainResolves(c, c[t].references, resolving + {t}, depth + 1, n - 1);
      var inner := Resolve(c, c[t].references, NOTHING, resolving + {t}, depth + 1).value;
      var s := Record(inner, references[0].name, c[t].text);
      assert references[1..] == [] && ResolveList(c, [], s, resolving, depth) == Ok(s);
    }
  }

  ghost predicate EndsWithin(c: Catalogue, references: seq<Reference>, limit: nat) {
    exists n: nat :: n < limit && Ends(c, references, n)
  }

  /** A chain of schemas with one reference each is resolved exactly when it ends and is shorter than the limit. */
  lemma ChainResolvesIff(c: Catalogue, references: seq<Reference>)
    requires |references| <= 1 && forall key <- c :: |c[key].references| <= 1
    ensures Resolve(c, references, NOTHING, {}, 0).Ok? <==> EndsWithin(c, references, 64)
  {
    if Resolve(c, references, NOTHING, {}, 0).Ok? {
      var n := FirstReferencesEnd(c, references, {}, 0);
      assert n < 64 && Ends(c, references, n);
    }
    if EndsWithin(c, references, 64) {
      var n: nat :| n < 64 && Ends(c, references, n);
      ChainResolves(c, references, {}, 0, n);
    }
  }
}

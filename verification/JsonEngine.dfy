/** The comparison as it runs: differences are pushed, the cycle guard is entered and left, branches
    are paired by augmenting paths. Each method is proved against the comparison's specification. */
module JsonEngine {
  import opened Wrappers
  import opened Canonical
  import opened JsonKinds
  import opened JsonDiff
  import opened JsonCompare
  import opened JsonTermination
  import JsonMeaning
  import JsonSoundness
  import JsonVerdict
  import Matching

  class Differences {
    var kinds: seq<Kind>

    constructor ()
      ensures kinds == []
    {
      kinds := [];
    }

    method Push(k: Kind)
      modifies this
      ensures kinds == old(kinds) + [k]
    {
      kinds := kinds + [k];
    }
  }

  class Guard {
    const orig: Side
    const upd: Side
    var visited: set<(string, string)>

    constructor (orig: Side, upd: Side)
      ensures View() == Context(orig, upd, {})
    {
      this.orig, this.upd, visited := orig, upd, {};
    }

    function View(): Context
      reads this
    {
      Context(orig, upd, visited)
    }
  }

  lemma {:induction false} RunStep(env: Env, fuel: nat, c: Context, items: Items, i: nat)
    requires fuel > 0 && i < |items| && Run(env, fuel, c, items[i..]).Some?
    ensures Run(env, fuel, c, items[i + 1..]).Some?
    ensures var all, rest := Run(env, fuel, c, items[i..]).value, Run(env, fuel, c, items[i + 1..]).value;
            match items[i]
            case Report(k) => all == [k] + rest
            case Descend(a, b) =>
              Compare(env, fuel - 1, c, a, b).Some? && all == Compare(env, fuel - 1, c, a, b).value + rest
  {
    hide Compare;
    assert items[i..][0] == items[i] && items[i..][1..] == items[i + 1..];
  }

  method RunItems(env: Env, ghost fuel: nat, items: Items, guard: Guard, out: Differences)
    requires fuel > 0 && Run(env, fuel, guard.View(), items).Some?
    modifies guard`visited, out
    ensures guard.visited == old(guard.visited)
    ensures out.kinds == old(out.kinds) + Run(env, fuel, old(guard.View()), items).value
    decreases fuel, 0
  {
    hide Compare;
    ghost var c, start := guard.View(), out.kinds;
    assert items[0..] == items;
    for i := 0 to |items|
      invariant guard.visited == old(guard.visited) && Run(env, fuel, c, items[i..]).Some?
      invariant out.kinds + Run(env, fuel, c, items[i..]).value == start + Run(env, fuel, c, items).value
    {
      RunStep(env, fuel, c, items, i);
      match items[i] {
        case Report(k) => out.Push(k);
        case Descend(a, b) => CompareSchema(env, fuel - 1, a, b, guard, out);
      }
    }
  }

  /** Compare two branches under an empty guard. */
  method BranchCompatible(env: Env, ghost fuel: nat, a: Json, b: Json, guard: Guard) returns (ok: bool)
    requires Judge(env, fuel, guard.View())(a, b).Some?
    ensures Judge(env, fuel, guard.View())(a, b) == Some(ok)
    decreases fuel, 2
  {
    hide Compare;
    var diffs := new Differences();
    var inner := new Guard(guard.orig, guard.upd);
    assert inner.View() == JsonCompare.Fresh(guard.View());
    CompareSchema(env, fuel, a, b, inner, diffs);
    ok := AllCompatible(diffs.kinds);
  }

  method BuildRow(env: Env, ghost fuel: nat, o: Json, us: seq<Json>, guard: Guard) returns (row: seq<nat>)
    requires forall x <- us :: Judge(env, fuel, guard.View())(o, x).Some?
    ensures row == Readers(Judge(env, fuel, guard.View()), o, us) && forall r <- row :: r < |us|
    decreases fuel, 3
  {
    hide Judge;
    ghost var ok := Judge(env, fuel, guard.View());
    row := [];
    for j := 0 to |us|
      invariant row == Readers(ok, o, us[..j]) && forall r <- row :: r < |us|
    {
      assert us[j] in us && us[..j + 1][..j] == us[..j];
      var verdict := BranchCompatible(env, fuel, o, us[j], guard);
      if verdict {
        row := row + [j];
      }
    }
    assert us[..|us|] == us;
  }

  method BuildEdges(env: Env, ghost fuel: nat, os: seq<Json>, us: seq<Json>, guard: Guard)
          returns (edges: Matching.Edges)
    requires Judged(Judge(env, fuel, guard.View()), os, us)
    ensures edges == Edges(Judge(env, fuel, guard.View()), os, us) && Matching.WellFormed(edges, |us|)
    decreases fuel, 4
  {
    hide Judge;
    ghost var ok := Judge(env, fuel, guard.View());
    edges := [];
    for i := 0 to |os|
      invariant |edges| == i
      invariant forall k :: 0 <= k < i ==> edges[k] == Readers(ok, os[k], us) && forall r <- edges[k] :: r < |us|
    {
      assert forall j :: 0 <= j < |us| ==> ok(os[i], us[j]).Some?;
      var row := BuildRow(env, fuel, os[i], us, guard);
      edges := edges + [row];
    }
  }

  method PushBranches(env: Env, ghost fuel: nat, os: seq<Json>, us: seq<Json>, longer: Kind, shorter: Kind,
          guard: Guard, out: Differences)
    requires CompareBranches(Judge(env, fuel, guard.View()), os, us, longer, shorter).Some?
    modifies out
    ensures out.kinds == old(out.kinds) + CompareBranches(Judge(env, fuel, guard.View()), os, us, longer, shorter).value
    decreases fuel, 5
  {
    hide Judge;
    if os != us {
      var edges := BuildEdges(env, fuel, os, us, guard);
      var matched := Matching.MaximumMatching(edges, |us|);
      Matching.CountCoversShorter(edges, |us|, matched);
      if matched < Matching.Min(|os|, |us|) {
        out.Push(SubschemasChanged);
      } else if |us| > |os| {
        out.Push(longer);
      } else if |us| < |os| {
        out.Push(shorter);
      }
    }
  }

  method AnyBranchReads(env: Env, ghost fuel: nat, o: Json, us: seq<Json>, guard: Guard) returns (found: bool)
    requires AnyReads(Judge(env, fuel, guard.View()), o, us).Some?
    ensures AnyReads(Judge(env, fuel, guard.View()), o, us) == Some(found)
    decreases fuel, 3
  {
    hide Judge;
    ghost var ok := Judge(env, fuel, guard.View());
    for j := 0 to |us|
      invariant AnyReads(ok, o, us) == AnyReads(ok, o, us[j..])
    {
      assert us[j..][0] == us[j] && us[j..][1..] == us[j + 1..];
      var verdict := BranchCompatible(env, fuel, o, us[j], guard);
      if verdict {
        return true;
      }
    }
    return false;
  }

  method AllBranchesRead(env: Env, ghost fuel: nat, os: seq<Json>, u: Json, guard: Guard) returns (all: bool)
    requires AllRead(Judge(env, fuel, guard.View()), os, u).Some?
    ensures AllRead(Judge(env, fuel, guard.View()), os, u) == Some(all)
    decreases fuel, 3
  {
    hide Judge;
    ghost var ok := Judge(env, fuel, guard.View());
    for j := 0 to |os|
      invariant AllRead(ok, os, u) == AllRead(ok, os[j..], u)
    {
      assert os[j..][0] == os[j] && os[j..][1..] == os[j + 1..];
      var verdict := BranchCompatible(env, fuel, os[j], u, guard);
      if !verdict {
        return false;
      }
    }
    return true;
  }

  method PushAllOf(env: Env, ghost fuel: nat, o: Json, u: Json, guard: Guard, out: Differences)
    requires CompareAllOf(Judge(env, fuel, guard.View()), o, u).Some?
    modifies out
    ensures out.kinds == old(out.kinds) + CompareAllOf(Judge(env, fuel, guard.View()), o, u).value
    decreases fuel, 6
  {
    hide Judge, CompareBranches, Part;
    var os, us := GetArray(o, "allOf"), GetArray(u, "allOf");
    if os.Some? && us.Some? {
      PushBranches(env, fuel, os.value, us.value, ProductTypeExtended, ProductTypeNarrowed, guard, out);
    } else if os.Some? || us.Some? {
      out.Push(CombinedTypeChanged);
    }
  }

  method PushSum(env: Env, ghost fuel: nat, o: Json, u: Json, guard: Guard, out: Differences)
    requires CompareSum(Judge(env, fuel, guard.View()), o, u).Some?
    modifies out
    ensures out.kinds == old(out.kinds) + CompareSum(Judge(env, fuel, guard.View()), o, u).value
    decreases fuel, 6
  {
    hide Judge, CompareBranches, SumOf, Part;
    match (SumOf(o), SumOf(u)) {
      case (Some(was), Some(now)) =>
        if was.any != now.any {
          out.Push(if now.any then CombinedTypeExtended else CombinedTypeChanged);
        } else {
          PushBranches(env, fuel, was.branches, now.branches, SumTypeExtended, SumTypeNarrowed, guard, out);
        }
      case (None, Some(now)) =>
        var found := AnyBranchReads(env, fuel, o, now.branches, guard);
        out.Push(if found then SumTypeExtended else CombinedTypeChanged);
      case (Some(was), None) =>
        var all := AllBranchesRead(env, fuel, was.branches, u, guard);
        out.Push(if all then SumTypeNarrowed else CombinedTypeChanged);
      case (None, None) =>
    }
  }

  method PushNot(env: Env, ghost fuel: nat, o: Json, u: Json, guard: Guard, out: Differences)
    requires CompareNot(Judge(env, fuel, guard.View()), o, u).Some?
    modifies out
    ensures out.kinds == old(out.kinds) + CompareNot(Judge(env, fuel, guard.View()), o, u).value
    decreases fuel, 6
  {
    hide Judge, Part;
    var was, now := Get(o, "not"), Get(u, "not");
    if was.Some? && now.Some? {
      if was.value != now.value {
        var verdict := BranchCompatible(env, fuel, now.value, was.value, guard);
        out.Push(if verdict then NotTypeNarrowed else NotTypeExtended);
      }
    } else if was.Some? || now.Some? {
      out.Push(CombinedTypeChanged);
    }
  }

  method PushCombinators(env: Env, ghost fuel: nat, o: Json, u: Json, guard: Guard, out: Differences)
    requires CompareCombinators(Judge(env, fuel, guard.View()), o, u).Some?
    modifies out
    ensures out.kinds == old(out.kinds) + CompareCombinators(Judge(env, fuel, guard.View()), o, u).value
    decreases fuel, 7
  {
    hide Judge, CompareAllOf, CompareSum, CompareNot;
    PushAllOf(env, fuel, o, u, guard, out);
    PushSum(env, fuel, o, u, guard, out);
    PushNot(env, fuel, o, u, guard, out);
  }

  /** Pushes exactly the differences of the specification, and leaves the cycle guard as it was. */
  method CompareSchema(env: Env, ghost fuel: nat, o: Json, u: Json, guard: Guard, out: Differences)
    requires Compare(env, fuel, guard.View(), o, u).Some?
    modifies guard`visited, out
    ensures guard.visited == old(guard.visited)
    ensures out.kinds == old(out.kinds) + Compare(env, fuel, old(guard.View()), o, u).value
    decreases fuel, 1
  {
    hide Leading, Trailing, CompareCombinators, RefOf, Followed, GuardKey, Run, Compatible, Part;
    if RefOf(o).Some? || RefOf(u).Some? {
      var key := GuardKey(o, u);
      if key in guard.visited {
        return;
      }
      ghost var before := guard.visited;
      var target := Followed(guard.View(), o, u);
      guard.visited := guard.visited + {key};
      if target.Some? {
        CompareSchema(env, fuel - 1, target.value.0, target.value.1, guard, out);
      }
      guard.visited := guard.visited - {key};
      assert guard.visited == before;
    } else {
      RunItems(env, fuel, Leading(env, o, u), guard, out);
      PushCombinators(env, fuel - 1, o, u, guard, out);
      RunItems(env, fuel, Trailing(env, o, u), guard, out);
    }
  }

  lemma NeedsFuel(env: Env, fuel: nat, c: Context, o: Json, u: Json)
    requires Compare(env, fuel, c, o, u).Some?
    ensures fuel > 0
  {}

  /** Whether a reader can read the data of a writer; the fuel exists when no reference cycle passes
      through a combinator. */
  method Check(env: Env, ghost fuel: nat, reader: Side, writer: Side) returns (ok: bool, incompatible: seq<Kind>)
    requires Compare(env, fuel, Context(writer, reader, {}), writer.root, reader.root).Some?
    ensures Compatible(env, fuel, Context(writer, reader, {}), writer.root, reader.root) == Some(ok)
    ensures ok <==> incompatible == []
    ensures var kinds := Compare(env, fuel, Context(writer, reader, {}), writer.root, reader.root).value;
            forall k :: k in incompatible <==> k in kinds && !IsBackwardCompatible(k)
    ensures && ok && PrintsNumbers(env.show)
            && JsonSoundness.Fragment(writer.root) && JsonSoundness.Fragment(reader.root) ==>
              forall i :: JsonMeaning.Valid(env, writer.root, i) ==> JsonMeaning.Valid(env, reader.root, i)
    ensures PrintsNumbers(env.show) && JsonVerdict.Plain(writer.root) && JsonVerdict.Plain(reader.root) ==>
              (ok <==> && JsonVerdict.KeywordsImplied(env, writer.root, reader.root)
                       && JsonVerdict.NothingRefused(writer.root, reader.root))
  {
    hide Compare, JsonSoundness.Fragment, JsonMeaning.Valid, JsonVerdict.Plain, JsonVerdict.KeywordsImplied;
    hide JsonVerdict.NothingRefused;
    var diffs := new Differences();
    var guard := new Guard(writer, reader);
    CompareSchema(env, fuel, writer.root, reader.root, guard, diffs);
    incompatible := [];
    for i := 0 to |diffs.kinds|
      invariant forall k :: k in incompatible <==> k in diffs.kinds[..i] && !IsBackwardCompatible(k)
    {
      assert diffs.kinds[..i + 1] == diffs.kinds[..i] + [diffs.kinds[i]];
      if !IsBackwardCompatible(diffs.kinds[i]) {
        incompatible := incompatible + [diffs.kinds[i]];
      }
    }
    assert diffs.kinds[..|diffs.kinds|] == diffs.kinds;
    ok := incompatible == [];
    assert incompatible != [] ==> incompatible[0] in incompatible;
    if ok && PrintsNumbers(env.show) && JsonSoundness.Fragment(writer.root) && JsonSoundness.Fragment(reader.root) {
      forall i | JsonMeaning.Valid(env, writer.root, i) ensures JsonMeaning.Valid(env, reader.root, i) {
        JsonSoundness.VerdictIsSound(env, fuel, Context(writer, reader, {}), writer.root, reader.root, i);
      }
    }
    if PrintsNumbers(env.show) && JsonVerdict.Plain(writer.root) && JsonVerdict.Plain(reader.root) {
      NeedsFuel(env, fuel, Context(writer, reader, {}), writer.root, reader.root);
      JsonVerdict.PlainVerdictIff(env, fuel, Context(writer, reader, {}), writer.root, reader.root);
    }
  }
}

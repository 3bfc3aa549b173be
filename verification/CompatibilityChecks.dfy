/** The compatibility check of a candidate as it runs over the live versions. */
module CompatibilityChecks {
  import opened Wrappers
  import opened Identity
  import opened Store
  import opened Operations
  import StoreInvariant
  import Acceptance

  /** One failed direction against one stored version. */
  datatype Failure = Failure(newReadsOld: bool, existing: Schema)

  predicate Fails(f: Formats, s: State, level: Level, ty: SchemaType, candidate: string, refs: seq<Resolved>,
          x: Failure) {
    var existingRefs := ResolvedOrEmpty(s, x.existing.references);
    if x.newReadsOld then NewReadsOld(level) && !f.check(ty, candidate, x.existing.text, refs, existingRefs)
    else OldReadsNew(level) && !f.check(ty, x.existing.text, candidate, existingRefs, refs)
  }

  method CheckOne(f: Formats, s: State, level: Level, ty: SchemaType, candidate: string, refs: seq<Resolved>,
          existing: Schema, failures: seq<Failure>)
    returns (out: seq<Failure>)
    ensures forall x :: x in out <==>
          x in failures || (x.existing == existing && Fails(f, s, level, ty, candidate, refs, x))
  {
    out := failures;
    var existingRefs := ResolvedOrEmpty(s, existing.references);
    if NewReadsOld(level) && !f.check(ty, candidate, existing.text, refs, existingRefs) {
      out := out + [Failure(true, existing)];
    }
    if OldReadsNew(level) && !f.check(ty, existing.text, candidate, existingRefs, refs) {
      out := out + [Failure(false, existing)];
    }
  }

  lemma {:induction false} LiveSnoc(s: State, vs: seq<Entry>, e: Entry)
    ensures LiveSchemas(s, vs + [e]) == LiveSchemas(s, vs) + if !e.deleted && e.id in s.byId then [s.byId[e.id]] else []
  {
    if vs == [] {
      assert vs + [e] == [e] && [e][1..] == [];
    } else {
      assert (vs + [e])[1..] == vs[1..] + [e];
      LiveSnoc(s, vs[1..], e);
    }
  }

  method VersionsSchemas(s: State, subject: string) returns (schemas: seq<Schema>)
    ensures schemas == LiveSchemas(s, Of(s, subject))
  {
    var vs := Of(s, subject);
    schemas := [];
    for i := 0 to |vs|
      invariant schemas == LiveSchemas(s, vs[..i])
    {
      LiveSnoc(s, vs[..i], vs[i]);
      assert vs[..i] + [vs[i]] == vs[..i + 1];
      if !vs[i].deleted && vs[i].id in s.byId {
        schemas := schemas + [s.byId[vs[i].id]];
      }
    }
    assert vs[..|vs|] == vs;
  }

  /** Collects exactly the failed directions against the versions that the level looks at; there are
      none exactly when the registration is allowed. */
  method CheckAgainstHistory(f: Formats, s: State, subject: string, ty: SchemaType, candidate: string,
          refs: seq<Resolved>) returns (failures: seq<Failure>)
    ensures failures == [] <==> CheckRegistration(f, s, subject, ty, candidate, refs)
    ensures StoreInvariant.WF(f, s) ==>
      (failures == [] <==>
         Acceptance.Compatible(f, s, EffectiveLevel(s, subject), subject, Acceptance.Candidate(ty, candidate, refs)))
    ensures forall x <- failures ::
          && x.existing in LiveSchemas(s, Of(s, subject))
          && Fails(f, s, EffectiveLevel(s, subject), ty, candidate, refs, x)
    ensures IsTransitive(EffectiveLevel(s, subject)) ==>
      forall x: Failure | x.existing in LiveSchemas(s, Of(s, subject)) ::
        Fails(f, s, EffectiveLevel(s, subject), ty, candidate, refs, x) ==> x in failures
  {
    var level := EffectiveLevel(s, subject);
    if StoreInvariant.WF(f, s) {
      Acceptance.CheckedIff(f, s, subject, Acceptance.Candidate(ty, candidate, refs));
    }
    hide StoreInvariant.WF, Acceptance.Compatible;
    failures := [];
    if level.NoLevel? {
      return;
    }
    var versions := VersionsSchemas(s, subject);
    if versions == [] {
      return;
    }
    var targets := if IsTransitive(level) then versions else versions[|versions| - 1..];
    for i := 0 to |targets|
      invariant forall x :: x in failures <==> x.existing in targets[..i] && Fails(f, s, level, ty, candidate, refs, x)
    {
      assert targets[..i + 1] == targets[..i] + [targets[i]];
      failures := CheckOne(f, s, level, ty, candidate, refs, targets[i], failures);
    }
    assert targets[..|targets|] == targets;
    NoneFail(f, s, level, ty, candidate, refs, targets, failures);
  }

  lemma NoneFail(f: Formats, s: State, level: Level, ty: SchemaType, candidate: string, refs: seq<Resolved>,
          targets: seq<Schema>, failures: seq<Failure>)
    requires forall x :: x in failures <==> x.existing in targets && Fails(f, s, level, ty, candidate, refs, x)
    ensures failures == [] <==> CheckAll(f, s, level, ty, candidate, refs, targets)
  {
    if failures != [] {
      assert failures[0] in failures;
    } else {
      forall t <- targets ensures CheckPair(f, level, ty, candidate, refs, t.text, ResolvedOrEmpty(s, t.references)) {
        assert Failure(true, t) !in failures && Failure(false, t) !in failures;
        assert !Fails(f, s, level, ty, candidate, refs, Failure(true, t));
        assert !Fails(f, s, level, ty, candidate, refs, Failure(false, t));
      }
    }
  }
}

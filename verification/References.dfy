/** Reference integrity: at every prefix of every serial log a live version refers only to versions
    that are present, and only to live ones when registrations name live targets. */
module References {
  import opened Wrappers
  import opened Identity
  import opened Store
  import opened StoreInvariant
  import opened Replay
  import opened Operations
  import opened RegistryRuns
  import Closure
  import SerialRuns

  /** The schema of a live version. */
  function LiveSchema(s: State, key: Pair): Option<Schema> {
    match Lookup(s, key.0, key.1)
    case None => None
    case Some(e) => if !e.deleted && e.id in s.byId then Some(s.byId[e.id]) else None
  }

  ghost predicate Anchored(s: State, key: Pair, strict: bool) {
    Lookup(s, key.0, key.1).Some? && (strict ==> !Lookup(s, key.0, key.1).value.deleted)
  }

  ghost predicate AllAnchored(s: State, references: seq<Reference>, strict: bool) {
    forall r <- references :: Anchored(s, Target(r), strict)
  }

  /** Every direct reference of a live version names a present version; a live one when `strict`. */
  ghost predicate Intact(s: State, strict: bool) {
    forall key :: LiveSchema(s, key).Some? ==> AllAnchored(s, LiveSchema(s, key).value.references, strict)
  }

  ghost predicate Unreferred(s: State, key: Pair) {
    forall k :: LiveSchema(s, k).Some? ==> !Refers(LiveSchema(s, k).value.references, key)
  }

  lemma ReferencedByNone(s: State, key: Pair)
    requires ReferencedBy(s, key, false) == {}
    ensures Unreferred(s, key)
  {
    forall k | LiveSchema(s, k).Some?
      ensures !Refers(LiveSchema(s, k).value.references, key)
    {
      FoundIn(Of(s, k.0), k.1);
      var e := Lookup(s, k.0, k.1).value;
      assert k.0 in s.subjects && e in s.subjects[k.0];
      assert Refers(s.byId[e.id].references, key) ==> e.id in ReferencedBy(s, key, false);
    }
  }

  // ------------------------------------------------------------------
  // The two kinds of change
  // ------------------------------------------------------------------

  // Versions are only removed or soft-deleted, and only unreferred ones.
  ghost predicate Shrinks(s: State, t: State) {
    && t.byId == s.byId
    && forall key: Pair :: Lookup(t, key.0, key.1) == Lookup(s, key.0, key.1) || Shrunk(s, t, key)
  }

  ghost predicate Shrunk(s: State, t: State, key: Pair) {
    Unreferred(s, key) && (Lookup(t, key.0, key.1).Some? ==> Lookup(t, key.0, key.1).value.deleted)
  }

  lemma ShrinkKeeps(s: State, t: State, strict: bool)
    requires Intact(s, strict) && Shrinks(s, t)
    ensures Intact(t, strict)
  {
    forall key | LiveSchema(t, key).Some?
      ensures AllAnchored(t, LiveSchema(t, key).value.references, strict)
    {
      assert LiveSchema(s, key) == LiveSchema(t, key);
      var references := LiveSchema(s, key).value.references;
      forall r <- references ensures Anchored(t, Target(r), strict) {
        assert Anchored(s, Target(r), strict);
        assert Refers(references, Target(r));
      }
    }
  }

  lemma RegisteredKeeps(f: Formats, s: State, v: SchemaValue, strict: bool)
    requires WF(f, s) && Intact(s, strict) && !v.deleted && AllAnchored(s, v.schema.references, strict)
    ensures Intact(ApplySchema(f, s, v), strict)
  {
    var t := ApplySchema(f, s, v);
    ApplySchemaEntries(f, s, v);
    forall key: Pair | Anchored(s, key, strict) ensures Anchored(t, key, strict) {}
    forall key: Pair | LiveSchema(t, key).Some?
      ensures AllAnchored(t, LiveSchema(t, key).value.references, strict)
    {
      var schema := LiveSchema(t, key).value;
      if schema != v.schema {
        assert key != (v.subject, v.version);
        assert LiveSchema(s, key) == Some(schema);
      }
      forall r <- schema.references ensures Anchored(t, Target(r), strict) { assert Anchored(s, Target(r), strict); }
    }
  }

  // ------------------------------------------------------------------
  // Deletes shrink
  // ------------------------------------------------------------------

  lemma SoftDeleteShrinks(f: Formats, s: State, v: SchemaValue)
    requires WF(f, s) && v.deleted && Lookup(s, v.subject, v.version).Some?
    requires Lookup(s, v.subject, v.version).value.id == v.id
    requires v.id in s.byId && v.schema == s.byId[v.id] && Unreferred(s, (v.subject, v.version))
    ensures Shrinks(s, ApplySchema(f, s, v))
  {
    ApplySchemaEntries(f, s, v);
  }

  lemma TombstoneShrinks(f: Formats, s: State, subject: string, version: int)
    requires WF(f, s) && Unreferred(s, (subject, version))
    ensures Shrinks(s, PermanentDelete(s, subject, version))
  {
    PermanentDeleteEntries(f, s, subject, version);
  }

  lemma PermanentDeleteEntries(f: Formats, s: State, subject: string, version: int)
    requires WF(f, s)
    ensures forall key: Pair ::
              Lookup(PermanentDelete(s, subject, version), key.0, key.1) ==
              if key == (subject, version) then None else Lookup(s, key.0, key.1)
  {
    var t, vs := PermanentDelete(s, subject, version), Of(s, subject);
    forall key: Pair
      ensures Lookup(t, key.0, key.1) == if key == (subject, version) then None else Lookup(s, key.0, key.1)
    {
      if key.0 == subject {
        OfDeleted(s, subject, version);
        assert Ascending(vs);
        WithoutEffect(vs, version, key.1);
      }
    }
  }

  lemma OfDeleted(s: State, subject: string, version: int)
    ensures Of(PermanentDelete(s, subject, version), subject) == Without(Of(s, subject), version)
  {
    WithoutMembers(Of(s, subject), version);
  }

  lemma SoftDeleteSubjectEntries(s: State, subject: string)
    ensures forall key: Pair :: Lookup(SoftDeleteSubject(s, subject), key.0, key.1) ==
              match Lookup(s, key.0, key.1)
              case Some(e) => Some(if key.0 == subject then e.(deleted := true) else e)
              case None => None
  {
    forall key: Pair
      ensures Lookup(SoftDeleteSubject(s, subject), key.0, key.1) ==
              match Lookup(s, key.0, key.1)
              case Some(e) => Some(if key.0 == subject then e.(deleted := true) else e)
              case None => None
    {
      MarkDeletedEffect(Of(s, subject), key.1);
    }
  }

  lemma {:induction false} LiveMember(vs: seq<Entry>, e: Entry)
    ensures e in LiveOf(vs) <==> e in vs && !e.deleted
  {
    if vs != [] {
      assert vs == [vs[0]] + vs[1..];
      LiveMember(vs[1..], e);
    }
  }

  lemma SoftDeleteSubjectShrinks(s: State, subject: string)
    requires forall e <- LiveOf(Of(s, subject)) :: Unreferred(s, (subject, e.version))
    ensures Shrinks(s, SoftDeleteSubject(s, subject))
  {
    var t := SoftDeleteSubject(s, subject);
    SoftDeleteSubjectEntries(s, subject);
    forall key: Pair
      ensures Lookup(t, key.0, key.1) == Lookup(s, key.0, key.1) || Shrunk(s, t, key)
    {
      FoundIn(Of(s, key.0), key.1);
      if key.0 == subject && Lookup(s, key.0, key.1).Some? {
        LiveMember(Of(s, subject), Lookup(s, key.0, key.1).value);
      }
    }
  }

  lemma OtherShrinks(f: Formats, s: State, r: Record)
    requires r.HighWater? || r.ModeRecord? || r.ConfigRecord? || r.Noop?
    ensures Shrinks(s, Apply(f, s, r)) && Apply(f, s, r).subjects == s.subjects
  {
    var t := Apply(f, s, r);
    match r {
      case HighWater(_, _) =>
      case ModeRecord(_, _) =>
      case ConfigRecord(_, _) =>
      case Noop =>
    }
    assert forall key: Pair :: Of(t, key.0) == Of(s, key.0);
  }

  // ------------------------------------------------------------------
  // Every write keeps the references intact
  // ------------------------------------------------------------------

  // What the records of a permanent delete do: none removes a version with a live referrer.
  ghost predicate Removal(s: State, r: Record) {
    || r.HighWater? || r.ModeRecord? || r.ConfigRecord? || r.Noop?
    || (r.Tombstone? && Unreferred(s, (r.key.subject, r.key.version)))
  }

  lemma RemovalShrinks(f: Formats, s: State, r: Record)
    requires WF(f, s) && Removal(s, r)
    ensures Shrinks(s, Apply(f, s, r))
  {
    if r.Tombstone? {
      TombstoneShrinks(f, s, r.key.subject, r.key.version);
    } else {
      OtherShrinks(f, s, r);
    }
  }

  lemma RemovalsStay(s: State, t: State)
    requires Shrinks(s, t)
    ensures forall r :: Removal(s, r) ==> Removal(t, r)
  {
    assert forall k :: LiveSchema(t, k).Some? ==> LiveSchema(s, k) == LiveSchema(t, k);
  }

  /** No schema changes, and every live version was live before. */
  ghost predicate Dwindles(s: State, t: State) {
    t.byId == s.byId && forall key :: LiveSchema(t, key).Some? ==> LiveSchema(t, key) == LiveSchema(s, key)
  }

  lemma {:induction false} RemovalsDwindle(f: Formats, level: Level, mode: Mode, prior: seq<Record>, more: seq<Record>)
    requires forall r <- more :: Removal(Replayed(f, level, mode, prior), r)
    ensures forall r :: Removal(Replayed(f, level, mode, prior), r) ==>
          Removal(Replayed(f, level, mode, prior + more), r)
    ensures Dwindles(Replayed(f, level, mode, prior), Replayed(f, level, mode, prior + more))
  {
    if more == [] {
      assert prior + more == prior;
    } else {
      var rest, last := more[..|more| - 1], more[|more| - 1];
      var s := Replayed(f, level, mode, prior + rest);
      RemovalsDwindle(f, level, mode, prior, rest);
      ReplayedKeeps(f, level, mode, prior + rest);
      ReplayedOne(f, level, mode, prior + rest, last);
      RemovalShrinks(f, s, last);
      RemovalsStay(s, Apply(f, s, last));
      assert prior + more == prior + rest + [last];
    }
  }

  lemma {:induction false} RemovalsKeep(f: Formats, level: Level, mode: Mode, prior: seq<Record>, more: seq<Record>,
          strict: bool)
    requires Intact(Replayed(f, level, mode, prior), strict)
    requires forall r <- more :: Removal(Replayed(f, level, mode, prior), r)
    ensures Intact(Replayed(f, level, mode, prior + more), strict)
  {
    if more == [] {
      assert prior + more == prior;
    } else {
      var rest, last := more[..|more| - 1], more[|more| - 1];
      var s := Replayed(f, level, mode, prior + rest);
      RemovalsKeep(f, level, mode, prior, rest, strict);
      RemovalsDwindle(f, level, mode, prior, rest);
      ReplayedKeeps(f, level, mode, prior + rest);
      ReplayedOne(f, level, mode, prior + rest, last);
      RemovalShrinks(f, s, last);
      ShrinkKeeps(s, Apply(f, s, last), strict);
      assert prior + more == prior + rest + [last];
    }
  }

  lemma ResolvedIsPresent(s: State, references: seq<Reference>)
    requires ResolveClosure(s, references).Ok?
    ensures AllAnchored(s, references, false)
  {
    var c := CatalogueOf(s);
    Closure.WalkCovers(c, references, START);
    forall r <- references ensures Anchored(s, Target(r), false) {
      assert Closure.Closed(c, ResolveInto(c, references, START).value.visited, Target(r));
      assert SchemaAt(s, Target(r)).Some?;
    }
  }

  /** A registration, checked when `strict` to name only live versions. */
  ghost predicate NamesLive(s: State, q: Request) {
    q.RegisterSchema? ==> AllAnchored(s, q.references, true)
  }

  lemma PlannedAnchors(f: Formats, s: State, q: Request, strict: bool)
    requires q.RegisterSchema? && Plan(f, q, [s]) != [] && (strict ==> NamesLive(s, q))
    ensures var r := Plan(f, q, [s])[0];
            && |Plan(f, q, [s])| == 1 && r.SchemaRecord? && !r.value.deleted
            && AllAnchored(s, r.value.schema.references, strict)
  {
    ResolvedIsPresent(s, q.references);
  }

  lemma TombstonesRemove(s: State, subject: string, vs: seq<Entry>)
    requires forall e <- vs :: ReferencedBy(s, (subject, e.version), false) == {}
    ensures forall r <- Tombstones(subject, vs) :: Removal(s, r)
  {
    forall r <- Tombstones(subject, vs)
      ensures Removal(s, r)
    {
      var i :| 0 <= i < |vs| && r == Tombstone(SchemaKey(subject, vs[i].version));
      assert vs[i] in vs;
      ReferencedByNone(s, (subject, vs[i].version));
    }
  }

  lemma PlanRemoves(f: Formats, s: State, q: Request)
    requires !q.RegisterSchema? && !q.SoftDeleteVersion? && !q.SoftDeleteAll?
    ensures forall r <- Plan(f, q, [s]) :: Removal(s, r)
  {
    if q.PermanentDeleteVersion? {
      if Plan(f, q, [s]) != [] { ReferencedByNone(s, (q.subject, q.version)); }
    } else if q.PermanentDeleteAll? {
      var vs := Of(s, q.subject);
      UnreferencedAt([s], s, 3, q.subject, vs);
      if Plan(f, q, [s]) != [] { TombstonesRemove(s, q.subject, vs); }
    }
  }

  lemma SoftDeletePlanShrinks(f: Formats, s: State, q: Request)
    requires WF(f, s) && q.SoftDeleteVersion? && Plan(f, q, [s]) != []
    ensures |Plan(f, q, [s])| == 1 && Shrinks(s, Apply(f, s, Plan(f, q, [s])[0]))
  {
    ReferencedByNone(s, (q.subject, q.version));
    var id := Lookup(s, q.subject, q.version).value.id;
    SoftDeleteShrinks(f, s, SchemaValue(q.subject, q.version, id, s.byId[id], true));
  }

  lemma SoftDeleteAllPlanShrinks(f: Formats, s: State, q: Request)
    requires q.SoftDeleteAll? && Plan(f, q, [s]) != []
    ensures |Plan(f, q, [s])| == 1 && Shrinks(s, Apply(f, s, Plan(f, q, [s])[0]))
  {
    var live := LiveOf(Of(s, q.subject));
    UnreferencedAt([s], s, 2, q.subject, live);
    forall e <- live ensures Unreferred(s, (q.subject, e.version)) { ReferencedByNone(s, (q.subject, e.version)); }
    SoftDeleteSubjectShrinks(s, q.subject);
  }

  lemma IntactWrite(f: Formats, level: Level, mode: Mode, prior: seq<Record>, q: Request, k: nat, strict: bool)
    requires k <= |Plan(f, q, [Replayed(f, level, mode, prior)])| && Intact(Replayed(f, level, mode, prior), strict)
    requires strict ==> NamesLive(Replayed(f, level, mode, prior), q)
    ensures Intact(Replayed(f, level, mode, prior + Plan(f, q, [Replayed(f, level, mode, prior)])[..k]), strict)
  {
    var s := Replayed(f, level, mode, prior);
    var plan := Plan(f, q, [s]);
    ReplayedKeeps(f, level, mode, prior);
    if k == 0 {
      assert prior + plan[..0] == prior;
    } else if q.RegisterSchema? || q.SoftDeleteVersion? || q.SoftDeleteAll? {
      IntactSingle(f, s, q, strict);
      assert plan[..k] == [plan[0]];
      ReplayedOne(f, level, mode, prior, plan[0]);
    } else {
      PlanRemoves(f, s, q);
      RemovalsKeep(f, level, mode, prior, plan[..k], strict);
    }
  }

  lemma SoftDeletesDwindle(f: Formats, s: State, q: Request)
    requires WF(f, s) && (q.SoftDeleteVersion? || q.SoftDeleteAll?) && Plan(f, q, [s]) != []
    ensures |Plan(f, q, [s])| == 1 && Dwindles(s, Apply(f, s, Plan(f, q, [s])[0]))
  {
    if q.SoftDeleteVersion? { SoftDeletePlanShrinks(f, s, q); } else { SoftDeleteAllPlanShrinks(f, s, q); }
  }

  /** A write that is no registration only removes or soft-deletes versions, and changes no schema. */
  lemma OtherWritesDwindle(f: Formats, level: Level, mode: Mode, prior: seq<Record>, q: Request, k: nat)
    requires k <= |Plan(f, q, [Replayed(f, level, mode, prior)])| && !q.RegisterSchema?
    ensures Dwindles(Replayed(f, level, mode, prior),
            Replayed(f, level, mode, prior + Plan(f, q, [Replayed(f, level, mode, prior)])[..k]))
  {
    var s := Replayed(f, level, mode, prior);
    var plan := Plan(f, q, [s]);
    if k == 0 {
      assert prior + plan[..0] == prior;
    } else if q.SoftDeleteVersion? || q.SoftDeleteAll? {
      ReplayedKeeps(f, level, mode, prior);
      SoftDeletesDwindle(f, s, q);
      assert plan[..k] == [plan[0]];
      ReplayedOne(f, level, mode, prior, plan[0]);
    } else {
      PlanRemoves(f, s, q);
      RemovalsDwindle(f, level, mode, prior, plan[..k]);
    }
  }

  lemma IntactSingle(f: Formats, s: State, q: Request, strict: bool)
    requires WF(f, s) && Intact(s, strict) && (q.RegisterSchema? || q.SoftDeleteVersion? || q.SoftDeleteAll?)
    requires Plan(f, q, [s]) != []
    requires strict ==> NamesLive(s, q)
    ensures |Plan(f, q, [s])| == 1 && Intact(Apply(f, s, Plan(f, q, [s])[0]), strict)
  {
    var r := Plan(f, q, [s])[0];
    if q.RegisterSchema? {
      PlannedAnchors(f, s, q, strict);
      RegisteredKeeps(f, s, r.value, strict);
    } else {
      if q.SoftDeleteVersion? { SoftDeletePlanShrinks(f, s, q); } else { SoftDeleteAllPlanShrinks(f, s, q); }
      ShrinkKeeps(s, Apply(f, s, r), strict);
    }
  }

  // ------------------------------------------------------------------
  // Every serial log
  // ------------------------------------------------------------------

  ghost function LiveTargets(strict: bool): Condition {
    (q: Request, s: State) => strict ==> NamesLive(s, q)
  }

  ghost function IntactInv(f: Formats, level: Level, mode: Mode, strict: bool): seq<Record> -> bool {
    (rs: seq<Record>) => Intact(Replayed(f, level, mode, rs), strict)
  }

  lemma IntactWriteKeeps(f: Formats, level: Level, mode: Mode, prior: seq<Record>, q: Request, k: nat, strict: bool)
    ensures WriteKeeps(f, level, mode, LiveTargets(strict), IntactInv(f, level, mode, strict), prior, q, k)
  {
    var s := Replayed(f, level, mode, prior);
    if Intact(s, strict) && (strict ==> NamesLive(s, q)) && k <= |Plan(f, q, [s])| {
      IntactWrite(f, level, mode, prior, q, k, strict);
    }
  }

  /** In the store of every serial log a live version refers only to present versions, and only to
      live ones if every registration in the log named live targets. */
  lemma ReferencesIntact(f: Formats, level: Level, mode: Mode, records: seq<Record>, strict: bool)
    requires SerialRuns.Serial(Registry(f, level, mode), LiveTargets(strict), records)
    ensures Intact(Replayed(f, level, mode, records), strict)
  {
    StartsIntact(f, level, mode, strict);
    hide Intact, Replayed, IntactInv;
    var inv := IntactInv(f, level, mode, strict);
    forall prior, q, k ensures WriteKeeps(f, level, mode, LiveTargets(strict), inv, prior, q, k) {
      IntactWriteKeeps(f, level, mode, prior, q, k, strict);
    }
    SerialInduction(f, level, mode, LiveTargets(strict), inv, records);
    HoldsIntact(f, level, mode, strict, records);
  }

  lemma StartsIntact(f: Formats, level: Level, mode: Mode, strict: bool)
    ensures IntactInv(f, level, mode, strict)([])
  {}

  lemma HoldsIntact(f: Formats, level: Level, mode: Mode, strict: bool, records: seq<Record>)
    requires IntactInv(f, level, mode, strict)(records)
    ensures Intact(Replayed(f, level, mode, records), strict)
  {}

  /** When live versions refer only to live versions, every live closure resolves. */
  lemma LiveClosureResolves(f: Formats, s: State, key: Pair)
    requires WF(f, s) && Intact(s, true) && LiveSchema(s, key).Some?
    ensures ResolveClosure(s, LiveSchema(s, key).value.references).Ok?
  {
    var c, references := CatalogueOf(s), LiveSchema(s, key).value.references;
    Closure.ClosureFailsIffMissing(c, references);
    forall k | Closure.Reaches(c, references, k)
      ensures k in c
    {
      var path :| Closure.IsPath(c, references, path) && Target(path[|path| - 1]) == k;
      PathIsLive(f, s, references, path, |path| - 1);
    }
  }

  lemma {:induction false} PathIsLive(f: Formats, s: State, references: seq<Reference>, path: seq<Reference>, i: nat)
    requires WF(f, s) && Intact(s, true) && AllAnchored(s, references, true)
    requires Closure.IsPath(CatalogueOf(s), references, path) && i < |path|
    ensures Target(path[i]) in CatalogueOf(s) && LiveSchema(s, Target(path[i])) == SchemaAt(s, Target(path[i]))
  {
    if i > 0 {
      PathIsLive(f, s, references, path, i - 1);
      assert Closure.Link(CatalogueOf(s), path[i - 1], path[i]);
      assert AllAnchored(s, LiveSchema(s, Target(path[i - 1])).value.references, true);
    }
    assert Anchored(s, Target(path[i]), true);
    FoundIn(Of(s, Target(path[i]).0), Target(path[i]).1);
    assert Lookup(s, Target(path[i]).0, Target(path[i]).1).value.id in s.byId;
  }
}

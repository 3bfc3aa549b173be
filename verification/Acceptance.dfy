/** When each request is accepted, stated on the store it is decided from. */
module Acceptance {
  import opened Wrappers
  import opened Identity
  import opened Store
  import opened StoreInvariant
  import opened Operations
  import opened References
  import Replay
  import Allocation

  // ------------------------------------------------------------------
  // Live versions
  // ------------------------------------------------------------------

  ghost predicate IsLive(s: State, subject: string, version: int) { LiveSchema(s, (subject, version)).Some? }

  /** The live version with the greatest number. */
  ghost predicate IsLatest(s: State, subject: string, version: int) {
    IsLive(s, subject, version) && forall v :: IsLive(s, subject, v) ==> v <= version
  }

  // The schemas of the live versions, in ascending order.
  lemma {:induction false} LiveSchemasAre(s: State, vs: seq<Entry>)
    requires forall e <- vs :: e.id in s.byId
    ensures forall x :: x in LiveSchemas(s, vs) <==> exists e <- vs :: !e.deleted && s.byId[e.id] == x
  {
    if vs != [] {
      LiveSchemasAre(s, vs[1..]);
      assert vs == [vs[0]] + vs[1..];
    }
  }

  lemma {:induction false} NoneLive(s: State, vs: seq<Entry>)
    requires (forall e <- vs :: e.id in s.byId) && LiveSchemas(s, vs) == []
    ensures forall i :: 0 <= i < |vs| ==> vs[i].deleted
  {
    if vs != [] { NoneLive(s, vs[1..]); }
  }

  // The last of them is that of the last live entry.
  lemma {:induction false} LastLive(s: State, vs: seq<Entry>) returns (i: nat)
    requires (forall e <- vs :: e.id in s.byId) && LiveSchemas(s, vs) != []
    ensures i < |vs| && !vs[i].deleted && s.byId[vs[i].id] == LiveSchemas(s, vs)[|LiveSchemas(s, vs)| - 1]
    ensures forall j :: i < j < |vs| ==> vs[j].deleted
  {
    var rest := vs[1..];
    if LiveSchemas(s, rest) == [] {
      NoneLive(s, rest);
      i := 0;
    } else {
      var k := LastLive(s, rest);
      i := k + 1;
      assert vs[i] == rest[k] && forall j :: i < j < |vs| ==> vs[j] == rest[j - 1];
    }
  }

  lemma LiveEntries(f: Formats, s: State, subject: string)
    requires WF(f, s)
    ensures Ascending(Of(s, subject)) && forall e <- Of(s, subject) :: e.id in s.byId
    ensures forall e <- Of(s, subject) :: Lookup(s, subject, e.version) == Some(e)
    ensures forall v :: Lookup(s, subject, v).Some? ==>
              Lookup(s, subject, v).value in Of(s, subject) && Lookup(s, subject, v).value.version == v
  {
    var vs := Of(s, subject);
    assert Ascending(vs);
    forall e <- vs ensures Lookup(s, subject, e.version) == Some(e) { FoundIff(vs, e); }
    forall v | Lookup(s, subject, v).Some? ensures Lookup(s, subject, v).value in vs { FoundIn(vs, v); }
    forall v | Lookup(s, subject, v).Some? ensures Lookup(s, subject, v).value.version == v { FoundIn(vs, v); }
  }

  // ------------------------------------------------------------------
  // Compatibility
  // ------------------------------------------------------------------

  /** A schema to be registered, with what its references resolve to. */
  datatype Candidate = Candidate(ty: SchemaType, text: string, refs: seq<Resolved>)

  ghost predicate Reads(f: Formats, s: State, c: Candidate, existing: Schema) {
    f.check(c.ty, c.text, existing.text, c.refs, ResolvedOrEmpty(s, existing.references))
  }

  ghost predicate ReadBy(f: Formats, s: State, c: Candidate, existing: Schema) {
    f.check(c.ty, existing.text, c.text, ResolvedOrEmpty(s, existing.references), c.refs)
  }

  ghost predicate ReadsVersion(f: Formats, s: State, c: Candidate, subject: string, version: int) {
    LiveSchema(s, (subject, version)).Some? ==> Reads(f, s, c, LiveSchema(s, (subject, version)).value)
  }

  ghost predicate ReadByVersion(f: Formats, s: State, c: Candidate, subject: string, version: int) {
    LiveSchema(s, (subject, version)).Some? ==> ReadBy(f, s, c, LiveSchema(s, (subject, version)).value)
  }

  /** What each level demands: to read the latest live version or all of them, to be read by it or them. */
  ghost predicate Compatible(f: Formats, s: State, level: Level, subject: string, c: Candidate) {
    match level
    case NoLevel => true
    case Backward => forall v :: IsLatest(s, subject, v) ==> ReadsVersion(f, s, c, subject, v)
    case BackwardTransitive => forall v :: ReadsVersion(f, s, c, subject, v)
    case Forward => forall v :: IsLatest(s, subject, v) ==> ReadByVersion(f, s, c, subject, v)
    case ForwardTransitive => forall v :: ReadByVersion(f, s, c, subject, v)
    case Full =>
      forall v :: IsLatest(s, subject, v) ==> ReadsVersion(f, s, c, subject, v) && ReadByVersion(f, s, c, subject, v)
    case FullTransitive => forall v :: ReadsVersion(f, s, c, subject, v) && ReadByVersion(f, s, c, subject, v)
  }

  lemma LiveTargets(f: Formats, s: State, subject: string)
    requires WF(f, s)
    ensures forall x :: x in LiveSchemas(s, Of(s, subject)) <==> exists v :: LiveSchema(s, (subject, v)) == Some(x)
    ensures LiveSchemas(s, Of(s, subject)) == [] <==> forall v :: !IsLive(s, subject, v)
  {
    var vs := Of(s, subject);
    LiveEntries(f, s, subject);
    LiveSchemasAre(s, vs);
    forall x | x in LiveSchemas(s, vs) ensures exists v :: LiveSchema(s, (subject, v)) == Some(x) {
      var e :| e in vs && !e.deleted && s.byId[e.id] == x;
      assert LiveSchema(s, (subject, e.version)) == Some(x);
    }
    if LiveSchemas(s, vs) != [] {
      assert LiveSchemas(s, vs)[0] in LiveSchemas(s, vs);
      var v :| LiveSchema(s, (subject, v)) == Some(LiveSchemas(s, vs)[0]);
      assert IsLive(s, subject, v);
    }
    forall v | IsLive(s, subject, v) ensures LiveSchema(s, (subject, v)).value in LiveSchemas(s, vs) {}
  }

  lemma LatestTarget(f: Formats, s: State, subject: string) returns (version: int)
    requires WF(f, s) && LiveSchemas(s, Of(s, subject)) != []
    ensures var targets := LiveSchemas(s, Of(s, subject));
            LiveSchema(s, (subject, version)) == Some(targets[|targets| - 1])
    ensures forall v :: IsLatest(s, subject, v) <==> v == version
  {
    var vs := Of(s, subject);
    LiveEntries(f, s, subject);
    var i := LastLive(s, vs);
    version := vs[i].version;
    assert vs[i] in vs && IsLive(s, subject, version);
    forall v | IsLive(s, subject, v) ensures v <= version {
      var j :| 0 <= j < |vs| && vs[j] == Lookup(s, subject, v).value;
    }
  }

  // What one existing schema has to pass, whichever versions the level looks at.
  ghost predicate Passes(f: Formats, s: State, level: Level, c: Candidate, x: Schema) {
    match level
    case NoLevel => true
    case Backward => Reads(f, s, c, x)
    case BackwardTransitive => Reads(f, s, c, x)
    case Forward => ReadBy(f, s, c, x)
    case ForwardTransitive => ReadBy(f, s, c, x)
    case _ => Reads(f, s, c, x) && ReadBy(f, s, c, x)
  }

  lemma CheckAllIff(f: Formats, s: State, level: Level, c: Candidate, targets: seq<Schema>)
    ensures CheckAll(f, s, level, c.ty, c.text, c.refs, targets) <==> forall x <- targets :: Passes(f, s, level, c, x)
  {
    forall x: Schema
      ensures CheckPair(f, level, c.ty, c.text, c.refs, x.text, ResolvedOrEmpty(s, x.references))
           == Passes(f, s, level, c, x)
    {}
  }

  lemma LatestIff(f: Formats, s: State, level: Level, subject: string, c: Candidate, latest: int)
    requires IsLive(s, subject, latest) && forall v :: IsLatest(s, subject, v) <==> v == latest
    ensures !IsTransitive(level) ==>
              (Compatible(f, s, level, subject, c) <==>
                 Passes(f, s, level, c, LiveSchema(s, (subject, latest)).value))
  {
    hide LiveSchema, Reads, ReadBy, IsLatest;
    assert IsLatest(s, subject, latest);
  }

  lemma TransitiveIff(f: Formats, s: State, level: Level, subject: string, c: Candidate, targets: seq<Schema>)
    requires forall x :: x in targets <==> exists v :: LiveSchema(s, (subject, v)) == Some(x)
    ensures IsTransitive(level) ==>
              (Compatible(f, s, level, subject, c) <==> forall x <- targets :: Passes(f, s, level, c, x))
  {
    hide LiveSchema, Reads, ReadBy;
    if IsTransitive(level) && forall x <- targets :: Passes(f, s, level, c, x) {
      forall v | LiveSchema(s, (subject, v)).Some? ensures Passes(f, s, level, c, LiveSchema(s, (subject, v)).value) {
        assert LiveSchema(s, (subject, v)).value in targets;
      }
    }
    if IsTransitive(level) && Compatible(f, s, level, subject, c) {
      forall x <- targets ensures Passes(f, s, level, c, x) {
        var v :| LiveSchema(s, (subject, v)) == Some(x);
        assert level.ForwardTransitive? || ReadsVersion(f, s, c, subject, v);
        assert level.BackwardTransitive? || ReadByVersion(f, s, c, subject, v);
      }
    }
  }

  /** The check of a registration passes exactly when the candidate meets what the level in force demands. */
  lemma CheckedIff(f: Formats, s: State, subject: string, c: Candidate)
    requires WF(f, s)
    ensures CheckRegistration(f, s, subject, c.ty, c.text, c.refs) <==>
              Compatible(f, s, EffectiveLevel(s, subject), subject, c)
  {
    hide WF, EffectiveLevel, Passes, CheckAll, IsLatest, LiveSchema, LiveSchemas, Compatible;
    var level, targets := EffectiveLevel(s, subject), LiveSchemas(s, Of(s, subject));
    LiveTargets(f, s, subject);
    if targets == [] || level.NoLevel? {
      NothingLive(f, s, level, subject, c);
    } else {
      var latest := LatestTarget(f, s, subject);
      assert targets[|targets| - 1..] == [targets[|targets| - 1]];
      CheckAllIff(f, s, level, c, targets);
      CheckAllIff(f, s, level, c, targets[|targets| - 1..]);
      LatestIff(f, s, level, subject, c, latest);
      TransitiveIff(f, s, level, subject, c, targets);
    }
  }

  lemma NothingLive(f: Formats, s: State, level: Level, subject: string, c: Candidate)
    requires level.NoLevel? || forall v :: !IsLive(s, subject, v)
    ensures Compatible(f, s, level, subject, c)
  {
    hide LiveSchema, Reads, ReadBy;
    assert level.NoLevel? || forall v :: LiveSchema(s, (subject, v)).None? == !IsLive(s, subject, v);
  }

  // ------------------------------------------------------------------
  // Registrations
  // ------------------------------------------------------------------

  /** The schema that a registration stores: the normal form of its text. */
  function Stored(f: Formats, q: Request, refs: seq<Resolved>): Schema
    requires q.RegisterSchema?
  {
    Schema(q.ty, f.normal(q.ty, q.text, refs), q.references, q.messageType)
  }

  /** An id that a client chose is unused, or it has that very identity and both schemas are sound. */
  ghost predicate IdIsFree(f: Formats, s: State, id: int, schema: Schema) {
    id in s.byId ==>
      && s.byId[id].ty == schema.ty && KeyOf(f, s.byId[id]) == KeyOf(f, schema)
      && Indexable(f, s, s.byId[id]) && Indexable(f, s, schema)
  }

  ghost predicate AdmitsImport(f: Formats, s: State, q: Request, schema: Schema)
    requires q.RegisterSchema?
  {
    q.importId.Some? && q.importVersion.Some? && IdIsFree(f, s, q.importId.value, schema)
  }

  // No live version has the identity already, the level is met, and an id is left.
  ghost predicate AdmitsNew(f: Formats, s: State, q: Request, schema: Schema, refs: seq<Resolved>)
    requires q.RegisterSchema?
  {
    var key := KeyOf(f, schema);
    && (forall v :: IsLive(s, q.subject, v) ==> !Allocation.Carries(f, s, q.subject, key, v))
    && Compatible(f, s, EffectiveLevel(s, q.subject), q.subject, Candidate(q.ty, schema.text, refs))
    && (key in s.byCanonical || s.maxId < MAX_VERSION)
  }

  /** When a registration is accepted and appends a record. */
  ghost predicate Admits(f: Formats, s: State, q: Request)
    requires q.RegisterSchema?
  {
    && !EffectiveMode(s, q.subject).ReadOnly? && ResolveClosure(s, q.references).Ok?
    && var refs := ResolveClosure(s, q.references).value;
       var schema := Stored(f, q, refs);
       && f.parses(q.ty, q.text, refs) && f.parses(q.ty, schema.text, refs)
       && if EffectiveMode(s, q.subject).Import? then AdmitsImport(f, s, q, schema)
          else AdmitsNew(f, s, q, schema, refs)
  }

  lemma ConflictIff(f: Formats, s: State, id: int, schema: Schema)
    ensures SchemaIdConflicts(f, s, id, schema) == NoConflict <==> IdIsFree(f, s, id, schema)
  {}

  // A live version with an identity is found.
  lemma LiveReuse(f: Formats, s: State, subject: string, key: string)
    requires WF(f, s)
    ensures FindUnder(s, subject, key, false).Some? <==>
              exists v :: IsLive(s, subject, v) && Allocation.Carries(f, s, subject, key, v)
  {
    hide KeyOf;
    LiveEntries(f, s, subject);
    if key in s.byCanonical {
      var vs, id := Of(s, subject), s.byCanonical[key];
      Replay.FoundIdIn(vs, id, false);
      if FindUnder(s, subject, key, false).Some? {
        var e := FindId(vs, id, false).value;
        assert IsLive(s, subject, e.version) && Allocation.Carries(f, s, subject, key, e.version);
      }
      if v :| IsLive(s, subject, v) && Allocation.Carries(f, s, subject, key, v) {
        assert Lookup(s, subject, v).value in vs;
      }
    }
  }

  lemma RegisterOkIff(f: Formats, s: State, subject: string, schema: Schema)
    requires WF(f, s)
    ensures Register(f, s, subject, schema).Ok? <==>
              Indexable(f, s, schema) && (KeyOf(f, schema) in s.byCanonical || s.maxId < MAX_VERSION)
  {
    hide ResolveClosure, KeyOf;
  }

  // The live SCHEMA record of an answer.
  function Recorded(subject: string, schema: Schema, reg: Registered): Record {
    SchemaRecord(SchemaKey(subject, reg.version), Replay.RecordOf(subject, schema, reg))
  }

  /** A registration appends a record exactly when it is admitted; the record holds the stored schema, with
      the chosen id and version in IMPORT mode and the allocated ones otherwise. */
  lemma RegistrationIff(f: Formats, s: State, q: Request)
    requires WF(f, s) && q.RegisterSchema?
    ensures Plan(f, q, [s]) != [] <==> Admits(f, s, q)
    ensures Admits(f, s, q) && EffectiveMode(s, q.subject).Import? ==>
              var schema := Stored(f, q, ResolveClosure(s, q.references).value);
              Plan(f, q, [s]) == [Recorded(q.subject, schema, Registered(q.importId.value, q.importVersion.value))]
    ensures Admits(f, s, q) && !EffectiveMode(s, q.subject).Import? ==>
              var schema := Stored(f, q, ResolveClosure(s, q.references).value);
              && Register(f, s, q.subject, schema).Ok?
              && Plan(f, q, [s]) == [Recorded(q.subject, schema, Register(f, s, q.subject, schema).value.1)]
  {
    hide WF, KeyOf, ResolveClosure, Register, CheckRegistration, Compatible, FindUnder, SchemaIdConflicts, IdIsFree,
         EffectiveMode, EffectiveLevel, IsLive;
    if !EffectiveMode(s, q.subject).ReadOnly? && ResolveClosure(s, q.references).Ok? {
      var refs := ResolveClosure(s, q.references).value;
      var schema := Stored(f, q, refs);
      if q.importId.Some? { ConflictIff(f, s, q.importId.value, schema); }
      LiveReuse(f, s, q.subject, KeyOf(f, schema));
      CheckedIff(f, s, q.subject, Candidate(q.ty, schema.text, refs));
      RegisterOkIff(f, s, q.subject, schema);
    }
  }

  // ------------------------------------------------------------------
  // Deletes and settings
  // ------------------------------------------------------------------

  ghost predicate Frozen(s: State, subject: string) { EffectiveMode(s, subject).ReadOnly? }

  // No live version refers to this one.
  ghost predicate Removable(s: State, subject: string, version: int) { Unreferred(s, (subject, version)) }

  ghost predicate IsPresent(s: State, subject: string, version: int) { Lookup(s, subject, version).Some? }

  ghost predicate IsSoftDeleted(s: State, subject: string, version: int) {
    Lookup(s, subject, version).Some? && Lookup(s, subject, version).value.deleted
  }

  /** When a request appends records. */
  ghost predicate Accepts(f: Formats, s: State, q: Request) {
    match q
    case RegisterSchema(_, _, _, _, _, _, _) => Admits(f, s, q)
    case SetLevel(None, _) => !GlobalMode(s).ReadOnly?
    case SetLevel(Some(x), _) => !Frozen(s, x)
    case DeleteLevel(x) => x in s.subjectLevel
    case SoftDeleteVersion(x, v) => !Frozen(s, x) && IsPresent(s, x, v) && Removable(s, x, v)
    case PermanentDeleteVersion(x, v) => !Frozen(s, x) && IsSoftDeleted(s, x, v) && Removable(s, x, v)
    case SoftDeleteAll(x) =>
      !Frozen(s, x) && (exists v :: IsLive(s, x, v)) && forall v :: IsLive(s, x, v) ==> Removable(s, x, v)
    case PermanentDeleteAll(x) =>
      && !Frozen(s, x) && (exists v :: IsPresent(s, x, v))
      && forall v :: IsPresent(s, x, v) ==> IsSoftDeleted(s, x, v) && Removable(s, x, v)
    case SetMode(None, m) => m.Import? ==> forall x, v :: !IsPresent(s, x, v)
    case SetMode(Some(x), m) => m.Import? ==> forall v :: !IsPresent(s, x, v)
    case ClearMode(_) => true
  }

  lemma ReferencedIff(f: Formats, s: State, key: Pair)
    requires WF(f, s)
    ensures ReferencedBy(s, key, false) == {} <==> Unreferred(s, key)
  {
    if ReferencedBy(s, key, false) == {} { ReferencedByNone(s, key); }
    if Unreferred(s, key) {
      forall id ensures id !in ReferencedBy(s, key, false) {
        forall x <- s.subjects, e <- s.subjects[x] | !e.deleted && e.id in s.byId
          ensures !Refers(s.byId[e.id].references, key)
        {
          LiveEntries(f, s, x);
          assert LiveSchema(s, (x, e.version)) == Some(s.byId[e.id]);
        }
      }
    }
  }

  lemma PresentIff(f: Formats, s: State, subject: string)
    requires WF(f, s)
    ensures Of(s, subject) == [] <==> forall v :: !IsPresent(s, subject, v)
    ensures subject in s.subjects <==> Of(s, subject) != []
  {
    LiveEntries(f, s, subject);
    if Of(s, subject) != [] {
      assert Of(s, subject)[0] in Of(s, subject);
      assert IsPresent(s, subject, Of(s, subject)[0].version);
    }
  }

  lemma EmptyIff(f: Formats, s: State)
    requires WF(f, s)
    ensures (exists x <- s.subjects :: s.subjects[x] != []) <==> exists x, v :: IsPresent(s, x, v)
  {
    if x :| x in s.subjects && s.subjects[x] != [] {
      PresentIff(f, s, x);
      var v :| IsPresent(s, x, v);
    }
    if x, v :| IsPresent(s, x, v) {
      PresentIff(f, s, x);
      assert x in s.subjects && s.subjects[x] == Of(s, x);
    }
  }

  lemma {:induction false} LiveOfAre(vs: seq<Entry>)
    ensures forall e :: e in LiveOf(vs) <==> e in vs && !e.deleted
  {
    if vs != [] {
      LiveOfAre(vs[1..]);
      assert vs == [vs[0]] + vs[1..];
    }
  }

  lemma LiveIff(f: Formats, s: State, subject: string)
    requires WF(f, s)
    ensures LiveOf(Of(s, subject)) == [] <==> forall v :: !IsLive(s, subject, v)
    ensures forall v :: IsLive(s, subject, v) <==> exists e <- LiveOf(Of(s, subject)) :: e.version == v
  {
    var vs := Of(s, subject);
    LiveEntries(f, s, subject);
    LiveOfAre(vs);
    forall v ensures IsLive(s, subject, v) <==> exists e <- LiveOf(vs) :: e.version == v {
      if IsLive(s, subject, v) { assert Lookup(s, subject, v).value in LiveOf(vs); }
    }
    if LiveOf(vs) != [] {
      assert LiveOf(vs)[0] in LiveOf(vs);
      assert IsLive(s, subject, LiveOf(vs)[0].version);
    }
  }

  lemma DeleteVersionIff(f: Formats, s: State, q: Request)
    requires WF(f, s) && (q.SoftDeleteVersion? || q.PermanentDeleteVersion?)
    ensures Plan(f, q, [s]) != [] <==> Accepts(f, s, q)
  {
    LiveEntries(f, s, q.subject);
    ReferencedIff(f, s, (q.subject, q.version));
    hide WF, ReferencedBy, Unreferred, EffectiveMode;
  }

  lemma RemovableIff(f: Formats, s: State, subject: string)
    requires WF(f, s)
    ensures forall v :: ReferencedBy(s, (subject, v), false) == {} <==> Removable(s, subject, v)
  {
    hide ReferencedBy, Unreferred, WF;
    forall v ensures ReferencedBy(s, (subject, v), false) == {} <==> Removable(s, subject, v) {
      ReferencedIff(f, s, (subject, v));
    }
  }

  lemma SoftDeleteAllIff(f: Formats, s: State, q: Request)
    requires WF(f, s) && q.SoftDeleteAll?
    ensures Plan(f, q, [s]) != [] <==> Accepts(f, s, q)
  {
    hide ReferencedBy, Removable, EffectiveMode, IsLive, WF, Unreferenced;
    var live := LiveOf(Of(s, q.subject));
    LiveIff(f, s, q.subject);
    UnreferencedAt([s], s, 2, q.subject, live);
    RemovableIff(f, s, q.subject);
    assert (forall v :: IsLive(s, q.subject, v) ==> Removable(s, q.subject, v))
      <==> forall e <- live :: Removable(s, q.subject, e.version);
  }

  lemma PermanentDeleteAllIff(f: Formats, s: State, q: Request)
    requires WF(f, s) && q.PermanentDeleteAll?
    ensures Plan(f, q, [s]) != [] <==> Accepts(f, s, q)
  {
    hide ReferencedBy, Removable, EffectiveMode, WF, Unreferenced;
    var vs := Of(s, q.subject);
    LiveEntries(f, s, q.subject);
    PresentIff(f, s, q.subject);
    LiveOfAre(vs);
    UnreferencedAt([s], s, 3, q.subject, vs);
    RemovableIff(f, s, q.subject);
    AllDeletedIff(f, s, q.subject);
    assert (forall v :: IsPresent(s, q.subject, v) ==> Removable(s, q.subject, v))
      <==> forall e <- vs :: Removable(s, q.subject, e.version);
  }

  lemma AllDeletedIff(f: Formats, s: State, subject: string)
    requires WF(f, s)
    ensures LiveOf(Of(s, subject)) == [] <==>
              forall v :: IsPresent(s, subject, v) ==> IsSoftDeleted(s, subject, v)
  {
    hide WF;
    LiveEntries(f, s, subject);
    LiveOfAre(Of(s, subject));
    if LiveOf(Of(s, subject)) != [] {
      var e := LiveOf(Of(s, subject))[0];
      assert e in LiveOf(Of(s, subject)) && IsPresent(s, subject, e.version);
    }
  }

  lemma SettingIff(f: Formats, s: State, q: Request)
    requires WF(f, s) && (q.SetLevel? || q.DeleteLevel? || q.SetMode? || q.ClearMode?)
    ensures Plan(f, q, [s]) != [] <==> Accepts(f, s, q)
  {
    hide IsPresent;
    match q
    case SetMode(None, m) =>
      EmptyIff(f, s);
      assert Read([s], 0) == s;
      assert Plan(f, q, [s]) == [] <==> m.Import? && exists x <- s.subjects :: s.subjects[x] != [];
    case SetMode(Some(x), _) => PresentIff(f, s, x);
    case _ =>
  }

  /** A request appends records exactly when the store meets its condition. */
  lemma AcceptedIff(f: Formats, s: State, q: Request)
    requires WF(f, s)
    ensures Plan(f, q, [s]) != [] <==> Accepts(f, s, q)
  {
    hide Plan, Accepts, WF;
    match q
    case RegisterSchema(_, _, _, _, _, _, _) => RegistrationAcceptedIff(f, s, q);
    case SoftDeleteVersion(_, _) => DeleteVersionIff(f, s, q);
    case PermanentDeleteVersion(_, _) => DeleteVersionIff(f, s, q);
    case SoftDeleteAll(_) => SoftDeleteAllIff(f, s, q);
    case PermanentDeleteAll(_) => PermanentDeleteAllIff(f, s, q);
    case _ => SettingIff(f, s, q);
  }

  lemma RegistrationAcceptedIff(f: Formats, s: State, q: Request)
    requires WF(f, s) && q.RegisterSchema?
    ensures Plan(f, q, [s]) != [] <==> Accepts(f, s, q)
  {
    hide Plan, Admits;
    RegistrationIff(f, s, q);
  }
}

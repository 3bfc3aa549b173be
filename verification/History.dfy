/** History compatibility: the live versions of a subject whose registrations are all of one type, taken at
    FULL_TRANSITIVE and out of IMPORT, stay mutually compatible. */
module History {
  import opened Wrappers
  import opened Identity
  import opened Store
  import opened StoreInvariant
  import opened Replay
  import opened Operations
  import opened RegistryRuns
  import opened References
  import IdentityKeys
  import RunTheorems
  import SerialRuns

  type Relation = (string, string) -> bool

  /** For schemas of type `ty` the compatibility check is a relation on canonical forms, and no
      canonical form contains U+0000. */
  ghost predicate Relational(f: Formats, ty: SchemaType, compatible: Relation) {
    && (forall a, b, ra, rb :: f.check(ty, a, b, ra, rb) == compatible(f.canon(ty, a), f.canon(ty, b)))
    && forall t, a :: '\U{0}' !in f.canon(t, a)
  }

  /** No schema of another type takes the canonical form of a stored one of type `ty`: their dedup keys, in
      which the type does not occur, would share an id. */
  ghost predicate KeepsTypesApart(f: Formats, ty: SchemaType, s: State, v: SchemaValue) {
    v.schema.ty == ty
    || forall id <- s.byId :: s.byId[id].ty == ty ==>
        f.canon(ty, s.byId[id].text) != f.canon(v.schema.ty, v.schema.text)
  }

  /** Under `subject` every registration is of type `ty`, taken at FULL_TRANSITIVE, out of IMPORT; under
      other subjects it may be of any type that keeps apart from `ty`. */
  ghost predicate Disciplined(f: Formats, ty: SchemaType, subject: string, q: Request, s: State) {
    q.RegisterSchema? ==>
      && (q.subject == subject ==>
          q.ty == ty && EffectiveLevel(s, subject).FullTransitive? && !EffectiveMode(s, subject).Import?)
      && forall r <- Plan(f, q, [s]) :: r.SchemaRecord? ==> KeepsTypesApart(f, ty, s, r.value)
  }

  /** The live versions of the subject are of type `ty`. */
  ghost predicate Typed(s: State, ty: SchemaType, subject: string) {
    forall version :: LiveSchema(s, (subject, version)).Some? ==> LiveSchema(s, (subject, version)).value.ty == ty
  }

  ghost predicate Live(s: State, subject: string, version: int) { LiveSchema(s, (subject, version)).Some? }

  ghost function CanonAt(f: Formats, s: State, ty: SchemaType, subject: string, version: int): string
    requires Live(s, subject, version)
  {
    f.canon(ty, LiveSchema(s, (subject, version)).value.text)
  }

  /** Any two live versions of the subject read each other's data. */
  ghost predicate Mutual(f: Formats, s: State, ty: SchemaType, subject: string, compatible: Relation) {
    forall v, w :: v != w && Live(s, subject, v) && Live(s, subject, w) ==>
        compatible(CanonAt(f, s, ty, subject, v), CanonAt(f, s, ty, subject, w))
  }

  lemma {:induction false} LiveSchemasHold(s: State, vs: seq<Entry>, e: Entry)
    requires e in vs && !e.deleted && e.id in s.byId
    ensures s.byId[e.id] in LiveSchemas(s, vs)
  {
    if vs[0] != e {
      assert vs == [vs[0]] + vs[1..];
      LiveSchemasHold(s, vs[1..], e);
    }
  }

  lemma LiveIsChecked(s: State, subject: string, version: int)
    requires Live(s, subject, version)
    ensures LiveSchema(s, (subject, version)).value in LiveSchemas(s, Of(s, subject))
  {
    FoundIn(Of(s, subject), version);
    LiveSchemasHold(s, Of(s, subject), Lookup(s, subject, version).value);
  }

  /** An accepted candidate reads, and is read by, every live version. */
  lemma AcceptedReads(f: Formats, s: State, ty: SchemaType, compatible: Relation, q: Request, version: int)
    requires Relational(f, ty, compatible) && q.RegisterSchema? && Disciplined(f, ty, q.subject, q, s)
    requires Plan(f, q, [s]) != [] && Live(s, q.subject, version)
    ensures var c, x := f.canon(ty, Plan(f, q, [s])[0].value.schema.text), CanonAt(f, s, ty, q.subject, version);
            compatible(c, x) && compatible(x, c)
  {
    LiveIsChecked(s, q.subject, version);
    var x, candidate := LiveSchema(s, (q.subject, version)).value, Plan(f, q, [s])[0].value.schema;
    var refs := ResolveClosure(s, q.references).value;
    assert CheckRegistration(f, s, q.subject, ty, candidate.text, refs);
    assert CheckAll(f, s, FullTransitive, ty, candidate.text, refs, LiveSchemas(s, Of(s, q.subject)));
    assert CheckPair(f, FullTransitive, ty, candidate.text, refs, x.text, ResolvedOrEmpty(s, x.references));
  }

  // A schema of type `ty` is replaced only by one of the same type and canonical form.
  lemma ReplacedAlike(f: Formats, s: State, ty: SchemaType, compatible: Relation, v: SchemaValue)
    requires Relational(f, ty, compatible) && KeepsTypesApart(f, ty, s, v)
    requires v.id in s.byId && s.byId[v.id].ty == ty && KeyOf(f, s.byId[v.id]) == KeyOf(f, v.schema)
    ensures v.schema.ty == ty && f.canon(ty, v.schema.text) == f.canon(ty, s.byId[v.id].text)
  {
    var a, b := s.byId[v.id], v.schema;
    IdentityKeys.KeyFixesCanonical(f.canon(a.ty, a.text), a.references, a.messageType, f.canon(b.ty, b.text),
            b.references, b.messageType);
  }

  // The record replaces a schema of the subject only by one with the same canonical form.
  lemma CanonKept(f: Formats, s: State, ty: SchemaType, compatible: Relation, v: SchemaValue, subject: string,
          version: int)
    requires WF(f, s) && Typed(s, ty, subject) && Relational(f, ty, compatible) && !v.deleted
    requires KeepsTypesApart(f, ty, s, v) && (v.id in s.byId ==> KeyOf(f, s.byId[v.id]) == KeyOf(f, v.schema))
    ensures var t := ApplySchema(f, s, v);
            if subject == v.subject && version == v.version
            then Live(t, subject, version) && CanonAt(f, t, ty, subject, version) == f.canon(ty, v.schema.text)
            else (Live(t, subject, version) <==> Live(s, subject, version))
                 && (Live(s, subject, version) ==>
                     CanonAt(f, t, ty, subject, version) == CanonAt(f, s, ty, subject, version))
  {
    hide KeyOf, KeepsTypesApart, Relational, ApplySchema, Typed;
    ApplySchemaEntries(f, s, v);
    FoundIn(Of(s, subject), version);
    if Lookup(s, subject, version).Some? {
      var id := Lookup(s, subject, version).value.id;
      assert id in s.byId;
      if id == v.id && Live(s, subject, version) {
        TypedAt(s, ty, subject, version);
        ReplacedAlike(f, s, ty, compatible, v);
      }
    }
  }

  lemma TypedAt(s: State, ty: SchemaType, subject: string, version: int)
    requires Typed(s, ty, subject) && Live(s, subject, version)
    ensures LiveSchema(s, (subject, version)).value.ty == ty
  {}

  lemma TypesKept(f: Formats, s: State, ty: SchemaType, compatible: Relation, v: SchemaValue, subject: string)
    requires WF(f, s) && Typed(s, ty, subject) && Relational(f, ty, compatible)
    requires (v.subject == subject ==> v.schema.ty == ty)
    requires KeepsTypesApart(f, ty, s, v) && (v.id in s.byId ==> KeyOf(f, s.byId[v.id]) == KeyOf(f, v.schema))
    ensures Typed(ApplySchema(f, s, v), ty, subject)
  {
    hide KeyOf, KeepsTypesApart, Relational, ApplySchema;
    var t := ApplySchema(f, s, v);
    ApplySchemaEntries(f, s, v);
    forall version | Live(t, subject, version) ensures LiveSchema(t, (subject, version)).value.ty == ty {
      FoundIn(Of(s, subject), version);
      if !(subject == v.subject && version == v.version) {
        var id := Lookup(s, subject, version).value.id;
        assert id in s.byId;
        TypedAt(s, ty, subject, version);
        if id == v.id { ReplacedAlike(f, s, ty, compatible, v); }
      }
    }
  }

  lemma RegisteredRecord(f: Formats, s: State, ty: SchemaType, subject: string, q: Request)
    requires WF(f, s) && q.RegisterSchema? && Disciplined(f, ty, subject, q, s) && Plan(f, q, [s]) != []
    ensures |Plan(f, q, [s])| == 1 && Plan(f, q, [s])[0].SchemaRecord?
    ensures var v := Plan(f, q, [s])[0].value;
            && !v.deleted && v.subject == q.subject && v.schema.ty == q.ty && KeepsTypesApart(f, ty, s, v)
            && (v.id in s.byId ==> KeyOf(f, s.byId[v.id]) == KeyOf(f, v.schema))
  {
    hide KeepsTypesApart, KeyOf, WF;
    PlannedAnchors(f, s, q, false);
    var v := Plan(f, q, [s])[0].value;
    assert Plan(f, q, [s])[0] in Plan(f, q, [s]);
    RunTheorems.PlanKeepsIdentity(f, q, s, v);
  }

  lemma RegistrationKeeps(f: Formats, s: State, ty: SchemaType, subject: string, compatible: Relation, q: Request)
    requires WF(f, s) && Typed(s, ty, subject) && Relational(f, ty, compatible) && Mutual(f, s, ty, subject, compatible)
    requires q.RegisterSchema? && Disciplined(f, ty, subject, q, s) && Plan(f, q, [s]) != []
    ensures |Plan(f, q, [s])| == 1 && Plan(f, q, [s])[0].SchemaRecord?
    ensures var t := Apply(f, s, Plan(f, q, [s])[0]); Typed(t, ty, subject) && Mutual(f, t, ty, subject, compatible)
  {
    RegisteredRecord(f, s, ty, subject, q);
    var v := Plan(f, q, [s])[0].value;
    var t := ApplySchema(f, s, v);
    assert Apply(f, s, Plan(f, q, [s])[0]) == t && (v.subject == subject ==> v.schema.ty == ty);
    hide Plan, ApplySchema, KeyOf, KeepsTypesApart, WF, Typed, Relational, Live, CanonAt;
    TypesKept(f, s, ty, compatible, v, subject);
    forall x, y | x != y && Live(t, subject, x) && Live(t, subject, y)
      ensures compatible(CanonAt(f, t, ty, subject, x), CanonAt(f, t, ty, subject, y))
    {
      CanonKept(f, s, ty, compatible, v, subject, x);
      CanonKept(f, s, ty, compatible, v, subject, y);
      if subject == v.subject && x == v.version {
        AcceptedReads(f, s, ty, compatible, q, y);
      } else if subject == v.subject && y == v.version {
        AcceptedReads(f, s, ty, compatible, q, x);
      }
    }
  }

  lemma DwindlingKeeps(f: Formats, s: State, t: State, ty: SchemaType, subject: string, compatible: Relation)
    requires Dwindles(s, t) && Typed(s, ty, subject) && Mutual(f, s, ty, subject, compatible)
    ensures Typed(t, ty, subject) && Mutual(f, t, ty, subject, compatible)
  {
    forall v | Live(t, subject, v) ensures LiveSchema(t, (subject, v)).value.ty == ty {
      assert LiveSchema(t, (subject, v)) == LiveSchema(s, (subject, v));
    }
    forall v, w | v != w && Live(t, subject, v) && Live(t, subject, w)
      ensures compatible(CanonAt(f, t, ty, subject, v), CanonAt(f, t, ty, subject, w))
    {
      assert LiveSchema(t, (subject, v)) == LiveSchema(s, (subject, v));
      assert LiveSchema(t, (subject, w)) == LiveSchema(s, (subject, w));
      assert Live(s, subject, v) && Live(s, subject, w);
    }
  }

  ghost function Discipline(f: Formats, ty: SchemaType, subject: string): Condition {
    (q: Request, s: State) => Disciplined(f, ty, subject, q, s)
  }

  ghost function MutualInv(f: Formats, level: Level, mode: Mode, ty: SchemaType, subject: string,
          compatible: Relation): seq<Record> -> bool {
    (rs: seq<Record>) =>
      && Typed(Replayed(f, level, mode, rs), ty, subject)
      && Mutual(f, Replayed(f, level, mode, rs), ty, subject, compatible)
  }

  lemma MutualWriteKeeps(f: Formats, level: Level, mode: Mode, ty: SchemaType, subject: string, compatible: Relation,
          prior: seq<Record>, q: Request, k: nat)
    requires Relational(f, ty, compatible)
    ensures WriteKeeps(f, level, mode, Discipline(f, ty, subject), MutualInv(f, level, mode, ty, subject, compatible),
            prior, q, k)
  {
    hide Plan, Mutual, Typed, Disciplined, Apply;
    var s := Replayed(f, level, mode, prior);
    var plan := Plan(f, q, [s]);
    if && k <= |plan| && Typed(s, ty, subject) && Mutual(f, s, ty, subject, compatible)
       && Disciplined(f, ty, subject, q, s) {
      ReplayedKeeps(f, level, mode, prior);
      if k == 0 {
        assert prior + plan[..0] == prior;
      } else if q.RegisterSchema? {
        RegistrationKeeps(f, s, ty, subject, compatible, q);
        assert plan[..k] == [plan[0]];
        ReplayedOne(f, level, mode, prior, plan[0]);
      } else {
        OtherWritesDwindle(f, level, mode, prior, q, k);
        DwindlingKeeps(f, s, Replayed(f, level, mode, prior + plan[..k]), ty, subject, compatible);
      }
    }
  }

  lemma MutualAtStart(f: Formats, level: Level, mode: Mode, ty: SchemaType, subject: string, compatible: Relation)
    ensures MutualInv(f, level, mode, ty, subject, compatible)([])
  {
    var s := WithDefaults(level, mode);
    assert Replayed(f, level, mode, []) == s;
    forall v ensures !Live(s, subject, v) { assert Of(s, (subject, v).0) == []; }
  }

  /** In every serial log of such registrations, any two live versions are mutually compatible,
      whatever was soft-deleted, resurrected or permanently deleted in between. */
  lemma LiveVersionsAreCompatible(f: Formats, level: Level, mode: Mode, ty: SchemaType, subject: string,
          compatible: Relation, records: seq<Record>)
    requires Relational(f, ty, compatible)
    requires SerialRuns.Serial(Registry(f, level, mode), Discipline(f, ty, subject), records)
    ensures Mutual(f, Replayed(f, level, mode, records), ty, subject, compatible)
  {
    var inv := MutualInv(f, level, mode, ty, subject, compatible);
    forall prior, q, k ensures WriteKeeps(f, level, mode, Discipline(f, ty, subject), inv, prior, q, k) {
      MutualWriteKeeps(f, level, mode, ty, subject, compatible, prior, q, k);
    }
    MutualAtStart(f, level, mode, ty, subject, compatible);
    SerialInduction(f, level, mode, Discipline(f, ty, subject), inv, records);
  }
}

/** A registration that is repeated after its record was folded: the same answer when references are
    acyclic, another one in a registry with a reference cycle. */
module Repeats {
  import opened Wrappers
  import opened Identity
  import IdentityKeys
  import opened Store
  import opened StoreInvariant
  import opened Closure
  import opened Replay
  import opened Operations

  // ------------------------------------------------------------------
  // Acyclic references
  // ------------------------------------------------------------------

  /** No pair that the references reach is reached from its own schema. */
  ghost predicate AcyclicBelow(c: Catalogue, references: seq<Reference>) {
    forall key :: Reaches(c, references, key) ==> !OnCycle(c, key)
  }

  /** The parts of the schema's dedup key contain no separator. */
  ghost predicate CleanSchema(f: Formats, schema: Schema) {
    '\U{0}' !in f.canon(schema.ty, schema.text) && forall r <- schema.references :: IdentityKeys.CleanRef(r)
  }

  lemma SameKeySameReferences(f: Formats, a: Schema, b: Schema)
    requires CleanSchema(f, a) && CleanSchema(f, b) && KeyOf(f, a) == KeyOf(f, b)
    ensures multiset(a.references) == multiset(b.references)
  {
    IdentityKeys.KeyIff(f.canon(a.ty, a.text), a.references, a.messageType, f.canon(b.ty, b.text), b.references,
            b.messageType);
  }

  // Paths from references leave from any rearrangement of them.
  lemma SameReach(c: Catalogue, a: seq<Reference>, b: seq<Reference>, key: Pair)
    requires multiset(a) == multiset(b) && Reaches(c, a, key)
    ensures Reaches(c, b, key)
  {
    var path :| IsPath(c, a, path) && Target(path[|path| - 1]) == key;
    assert path[0] in multiset(b);
    assert IsPath(c, b, path);
  }

  lemma StoredKey(f: Formats, s: State, key: string)
    requires WF(f, s) && key in s.byCanonical
    ensures s.byCanonical[key] in s.byId && KeyOf(f, s.byId[s.byCanonical[key]]) == key
  {
    var id := s.byCanonical[key];
    assert id in s.canonicalById && s.canonicalById[id] == key;
  }

  lemma DecidedId(f: Formats, s: State, subject: string, schema: Schema, reg: Registered)
    requires WF(f, s) && Register(f, s, subject, schema).Ok? && Register(f, s, subject, schema).value.1 == reg
    ensures if KeyOf(f, schema) in s.byCanonical then reg.id == s.byCanonical[KeyOf(f, schema)] else reg.id !in s.byId
  {
    var key := KeyOf(f, schema);
    if key in s.byCanonical { FoundIdIn(Of(s, subject), s.byCanonical[key], true); }
  }

  // A pair of the closure with the decided id would refer to everything the schema refers to.
  lemma DecidedIdIsOutside(f: Formats, s: State, subject: string, schema: Schema, reg: Registered, key: Pair)
    requires WF(f, s) && Register(f, s, subject, schema).Ok? && Register(f, s, subject, schema).value.1 == reg
    requires CleanSchema(f, schema) && forall id <- s.byId :: CleanSchema(f, s.byId[id])
    requires AcyclicBelow(CatalogueOf(s), schema.references) && Reaches(CatalogueOf(s), schema.references, key)
    requires SchemaAt(s, key).Some?
    ensures Lookup(s, key.0, key.1).value.id != reg.id
  {
    hide WF, Register, KeyOf, Reaches, CleanSchema;
    var c, id := CatalogueOf(s), Lookup(s, key.0, key.1).value.id;
    DecidedId(f, s, subject, schema, reg);
    if KeyOf(f, schema) in s.byCanonical && id == s.byCanonical[KeyOf(f, schema)] {
      StoredKey(f, s, KeyOf(f, schema));
      SameKeySameReferences(f, schema, c[key]);
      SameReach(c, schema.references, c[key].references, key);
    }
  }

  /** With acyclic references and clean keys a decision never replaces a schema of its own closure, below
      the last version number. */
  lemma AcyclicIsUndisturbed(f: Formats, s: State, subject: string, schema: Schema, reg: Registered)
    requires WF(f, s) && Register(f, s, subject, schema).Ok? && Register(f, s, subject, schema).value.1 == reg
    requires CleanSchema(f, schema) && forall id <- s.byId :: CleanSchema(f, s.byId[id])
    requires AcyclicBelow(CatalogueOf(s), schema.references) && NextVersion(s, subject) < MAX_VERSION
    ensures Undisturbed(s, subject, schema, reg)
  {
    hide WF, AcyclicBelow, KeyOf, Reaches, CleanSchema, Closed;
    var c := CatalogueOf(s);
    ClosureIsOk(f, s, subject, schema);
    RootsReached(c, schema.references);
    WalkReaches(c, schema.references, schema.references, START);
    DecisionRebindsOnlyAtTheEnd(f, s, subject, schema, reg);
    forall key <- ResolveInto(c, schema.references, START).value.visited
      ensures SchemaAt(s, key).Some? && Untouched(s, subject, schema, reg, key)
    {
      ReachedIsVisited(c, schema.references, key);
      DecidedIdIsOutside(f, s, subject, schema, reg, key);
    }
  }

  lemma ClosureIsOk(f: Formats, s: State, subject: string, schema: Schema)
    requires Register(f, s, subject, schema).Ok?
    ensures ResolveInto(CatalogueOf(s), schema.references, START).Ok?
  {}

  /** Then registering again after the replay returns the same id and version and changes nothing. */
  lemma AcyclicRepeatsAlike(f: Formats, s: State, subject: string, schema: Schema, reg: Registered)
    requires WF(f, s) && Register(f, s, subject, schema).Ok? && Register(f, s, subject, schema).value.1 == reg
    requires CleanSchema(f, schema) && forall id <- s.byId :: CleanSchema(f, s.byId[id])
    requires AcyclicBelow(CatalogueOf(s), schema.references) && NextVersion(s, subject) < MAX_VERSION
    ensures var t := ApplySchema(f, s, RecordOf(subject, schema, reg)); Register(f, t, subject, schema) == Ok((t, reg))
  {
    hide ApplySchema, Register, Undisturbed;
    AcyclicIsUndisturbed(f, s, subject, schema, reg);
    ReplayThenRegister(f, s, subject, schema, reg);
  }

  // ------------------------------------------------------------------
  // A registry with a reference cycle
  // ------------------------------------------------------------------

  // Every text has one canonical form; a text does not parse with a reference that resolves to "new".
  const PICKY: Formats := Formats(
    (ty: SchemaType, text: string, resolved: seq<Resolved>) => forall r <- resolved :: r.text != "new",
    (ty: SchemaType, text: string) => "c",
    (ty: SchemaType, text: string, resolved: seq<Resolved>) => text,
    (ty: SchemaType, a: string, b: string, x: seq<Resolved>, y: seq<Resolved>) => true)

  const TO_A: Reference := Reference("n", "a", 1)

  const PLAIN: Schema := Schema(Avro, "old", [], None)

  const CYCLIC: Schema := Schema(Avro, "old", [TO_A], None)

  const AGAIN: Schema := Schema(Avro, "new", [TO_A], None)

  function Importing(schema: Schema, id: int): Request {
    RegisterSchema("a", schema.ty, schema.text, schema.references, schema.messageType, Some(id), Some(1))
  }

  const UNDER_B: Request := RegisterSchema("b", AGAIN.ty, AGAIN.text, AGAIN.references, AGAIN.messageType, None, None)

  // The stores: empty, subject a in IMPORT, (a, 1) imported, (a, 1) imported as a reference to itself, and
  // the registration under b.
  function S0(): State { WithDefaults(NoLevel, ReadWrite) }

  function S1(): State { Apply(PICKY, S0(), ModeRecord(Some("a"), Some(Import))) }

  function S2(): State { Apply(PICKY, S1(), SchemaRecordOf("a", 1, 1, PLAIN, false)) }

  function S3(): State { Apply(PICKY, S2(), SchemaRecordOf("a", 1, 2, CYCLIC, false)) }

  function S4(): State { Apply(PICKY, S3(), SchemaRecordOf("b", 1, 2, AGAIN, false)) }

  lemma StoredAfter(s: State, subject: string, id: int, schema: Schema)
    requires WF(PICKY, s)
    ensures var t := Apply(PICKY, s, SchemaRecordOf(subject, 1, id, schema, false));
            && WF(PICKY, t) && t.byId == s.byId[id := schema] && SameSettings(s, t)
            && Lookup(t, subject, 1) == Some(Entry(1, id, false)) && SchemaAt(t, (subject, 1)) == Some(schema)
            && forall x :: x != subject ==> Of(t, x) == Of(s, x) && NextVersion(t, x) == NextVersion(s, x)
  {
    ApplyKeeps(PICKY, s, SchemaRecordOf(subject, 1, id, schema, false));
    ApplySchemaEntries(PICKY, s, SchemaValue(subject, 1, id, schema, false));
  }

  ghost predicate Settings(s: State) {
    EffectiveMode(s, "a") == Import && EffectiveMode(s, "b") == ReadWrite && EffectiveLevel(s, "b") == NoLevel
  }

  lemma FirstStore()
    ensures WF(PICKY, S1()) && S1().byId == map[] && Settings(S1())
    ensures Of(S1(), "b") == [] && NextVersion(S1(), "b") == 1
  {
    assert WF(PICKY, S0());
    ApplyKeeps(PICKY, S0(), ModeRecord(Some("a"), Some(Import)));
  }

  lemma SettingsStay(s: State, t: State)
    requires Settings(s) && SameSettings(s, t)
    ensures Settings(t)
  {}

  lemma SecondStore()
    ensures WF(PICKY, S2()) && S2().byId == map[1 := PLAIN] && Settings(S2()) && SchemaAt(S2(), ("a", 1)) == Some(PLAIN)
    ensures Of(S2(), "b") == [] && NextVersion(S2(), "b") == 1
  {
    hide WF, Apply, S1, Settings, SchemaAt, NextVersion, SameSettings;
    FirstStore();
    StoredAfter(S1(), "a", 1, PLAIN);
    SettingsStay(S1(), S2());
  }

  lemma ThirdStore()
    ensures WF(PICKY, S3()) && Settings(S3()) && SchemaAt(S3(), ("a", 1)) == Some(CYCLIC)
    ensures Of(S3(), "b") == [] && NextVersion(S3(), "b") == 1 && S3().byId == map[1 := PLAIN, 2 := CYCLIC]
    ensures Lookup(S3(), "a", 1) == Some(Entry(1, 2, false))
  {
    hide WF, Apply, S2, Settings, SchemaAt, NextVersion, SameSettings, Lookup;
    SecondStore();
    StoredAfter(S2(), "a", 2, CYCLIC);
    SettingsStay(S2(), S3());
  }

  // (a, 1) still carries id 2.
  lemma FourthStore()
    ensures SchemaAt(S4(), ("a", 1)) == Some(AGAIN)
  {
    hide WF, Apply, S3, Settings, NextVersion, SameSettings;
    ThirdStore();
    StoredAfter(S3(), "b", 2, AGAIN);
    assert Of(S4(), "a") == Of(S3(), "a");
  }

  // A reference to a schema that refers to nothing, or to itself.
  lemma ShortClosure(s: State, schema: Schema)
    requires SchemaAt(s, ("a", 1)) == Some(schema) && (schema.references == [] || schema.references == [TO_A])
    ensures ResolveClosure(s, [TO_A]) == Ok([Resolved("n", schema.ty, schema.text)])
  {
    hide SchemaAt;
    ShortWalk(CatalogueOf(s), schema);
  }

  lemma ShortWalk(c: Catalogue, schema: Schema)
    requires ("a", 1) in c && c[("a", 1)] == schema && (schema.references == [] || schema.references == [TO_A])
    ensures ResolveInto(c, [TO_A], START).Ok?
    ensures ResolveInto(c, [TO_A], START).value.out == [Resolved("n", schema.ty, schema.text)]
  {
    var below := Walk([], {}, {("a", 1)});
    assert Target(TO_A) == ("a", 1) && START.(visited := START.visited + {("a", 1)}) == below;
    assert [TO_A][1..] == [];
    assert ResolveInto(c, [], below) == Ok(below);
    assert ResolveInto(c, schema.references, below) == Ok(below);
    var after := Emit(below, TO_A, schema);
    assert ResolveInto(c, [], after) == Ok(after);
    assert ResolveInto(c, [TO_A], START) == ResolveInto(c, [], after);
  }

  lemma PickyParses(text: string, was: string)
    ensures PICKY.parses(Avro, text, [Resolved("n", Avro, was)]) <==> was != "new"
  {
    assert Resolved("n", Avro, was) in [Resolved("n", Avro, was)];
  }

  lemma ImportPlanned(s: State, schema: Schema, id: int, resolved: seq<Resolved>)
    requires EffectiveMode(s, "a") == Import && ResolveClosure(s, schema.references) == Ok(resolved)
    requires PICKY.parses(schema.ty, schema.text, resolved) && id !in s.byId
    ensures Plan(PICKY, Importing(schema, id), [s]) == [SchemaRecordOf("a", 1, id, schema, false)]
  {
    hide EffectiveMode, ResolveClosure;
  }

  lemma Imports()
    ensures Plan(PICKY, Importing(PLAIN, 1), [S1()]) == [SchemaRecordOf("a", 1, 1, PLAIN, false)]
    ensures Plan(PICKY, Importing(CYCLIC, 2), [S2()]) == [SchemaRecordOf("a", 1, 2, CYCLIC, false)]
  {
    hide S1, S2, WF, Plan;
    FirstStore();
    SecondStore();
    ShortClosure(S2(), PLAIN);
    PickyParses("old", "old");
    ImportPlanned(S1(), PLAIN, 1, []);
    ImportPlanned(S2(), CYCLIC, 2, [Resolved("n", Avro, "old")]);
  }

  // An id whose schema resolves at its record is indexed.
  lemma IndexedAfter(s: State, id: int, schema: Schema)
    requires WF(PICKY, s) && id !in s.byId && Indexable(PICKY, Rebound(s, id, schema), schema)
    ensures var t := Apply(PICKY, s, SchemaRecordOf("a", 1, id, schema, false));
            KeyOf(PICKY, schema) in t.byCanonical && t.byCanonical[KeyOf(PICKY, schema)] == id
  {
    hide KeyOf, Indexable;
    var s1 := ObserveVersion(s.(maxId := Max(s.maxId, id)), "a", 1);
    var s2 := Unindex(s1, id).(byId := s1.byId[id := schema]);
    IndexableAt(PICKY, s2, Rebound(s, id, schema), schema);
  }

  lemma CyclicIsIndexed()
    ensures KeyOf(PICKY, CYCLIC) in S3().byCanonical && S3().byCanonical[KeyOf(PICKY, CYCLIC)] == 2
  {
    hide S2, KeyOf, WF, Apply, ResolveClosure;
    SecondStore();
    var s := Rebound(S2(), 2, CYCLIC);
    assert Of(s, "a") == Of(S2(), "a") && SchemaAt(s, ("a", 1)) == Some(PLAIN);
    ShortClosure(s, PLAIN);
    PickyParses("old", "old");
    IndexedAfter(S2(), 2, CYCLIC);
  }

  lemma RegistrationPlanned(s: State)
    requires EffectiveMode(s, "b") == ReadWrite && EffectiveLevel(s, "b") == NoLevel && Of(s, "b") == []
    requires NextVersion(s, "b") == 1
    requires ResolveClosure(s, [TO_A]) == Ok([Resolved("n", Avro, "old")])
    requires KeyOf(PICKY, AGAIN) in s.byCanonical && s.byCanonical[KeyOf(PICKY, AGAIN)] == 2
    ensures Register(PICKY, s, "b", AGAIN).Ok? && Register(PICKY, s, "b", AGAIN).value.1 == Registered(2, 1)
    ensures Plan(PICKY, UNDER_B, [s]) == [SchemaRecordOf("b", 1, 2, AGAIN, false)]
  {
    hide EffectiveMode, EffectiveLevel, ResolveClosure, KeyOf, NextVersion, Enlisted;
    PickyParses("new", "old");
  }

  lemma DecidedUnderB()
    ensures Register(PICKY, S3(), "b", AGAIN).Ok? && Register(PICKY, S3(), "b", AGAIN).value.1 == Registered(2, 1)
    ensures Plan(PICKY, UNDER_B, [S3()]) == [SchemaRecordOf("b", 1, 2, AGAIN, false)]
  {
    hide S3, WF, Register, Plan, ResolveClosure;
    ThirdStore();
    CyclicIsIndexed();
    ShortClosure(S3(), CYCLIC);
    assert KeyOf(PICKY, AGAIN) == KeyOf(PICKY, CYCLIC);
    RegistrationPlanned(S3());
  }

  lemma RepeatRefused()
    ensures Register(PICKY, S4(), "b", AGAIN) == Err(InvalidSchema)
  {
    hide S4, ResolveClosure;
    FourthStore();
    ShortClosure(S4(), AGAIN);
    PickyParses("new", "new");
  }

  /** Subject a is set to IMPORT, and (a, 1) is imported, then imported again under another id with a
      reference to itself. A registration under b with the canonical form of that schema reuses its id, and
      folding its record puts the new text behind the cycle: the repeat is refused as invalid. */
  lemma CyclicRepeatIsRefused()
    ensures Plan(PICKY, SetMode(Some("a"), Import), [S0()]) == [ModeRecord(Some("a"), Some(Import))]
    ensures Plan(PICKY, Importing(PLAIN, 1), [S1()]) == [SchemaRecordOf("a", 1, 1, PLAIN, false)]
    ensures Plan(PICKY, Importing(CYCLIC, 2), [S2()]) == [SchemaRecordOf("a", 1, 2, CYCLIC, false)]
    ensures Plan(PICKY, UNDER_B, [S3()]) == [SchemaRecordOf("b", 1, 2, AGAIN, false)]
    ensures S4() == ApplySchema(PICKY, S3(), RecordOf("b", AGAIN, Registered(2, 1)))
    ensures Register(PICKY, S3(), "b", AGAIN).Ok? && Register(PICKY, S3(), "b", AGAIN).value.1 == Registered(2, 1)
    ensures Register(PICKY, S4(), "b", AGAIN) == Err(InvalidSchema)
  {
    hide S1, S2, S3, Register, PlanRegister, ApplySchema;
    Imports();
    DecidedUnderB();
    RepeatRefused();
  }
}

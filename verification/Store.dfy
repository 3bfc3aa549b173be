/** The folded registry state as a value, and what each record or request does to it. */
module Store {
  import opened Wrappers
  import opened Identity

  const MAX_VERSION: int := 0x7fff_ffff

  datatype Resolved = Resolved(name: string, ty: SchemaType, text: string)

  datatype Schema = Schema(ty: SchemaType, text: string, references: seq<Reference>, messageType: Option<string>)

  datatype Registered = Registered(id: int, version: int)

  datatype Entry = Entry(version: int, id: int, deleted: bool)

  type Pair = (string, int)

  /** The schema formats. The canonical form ignores the resolved references. */
  datatype Formats = Formats(
    parses: (SchemaType, string, seq<Resolved>) -> bool,
    canon: (SchemaType, string) -> string,
    normal: (SchemaType, string, seq<Resolved>) -> string,
    check: (SchemaType, string, string, seq<Resolved>, seq<Resolved>) -> bool)

  datatype Mode = ReadWrite | ReadOnly | Import

  datatype Level = NoLevel | Backward | BackwardTransitive | Forward | ForwardTransitive | Full | FullTransitive

  datatype State = State(
    subjects: map<string, seq<Entry>>,
    byId: map<int, Schema>,
    byCanonical: map<string, int>,
    canonicalById: map<int, string>,
    globalLevel: Option<Level>,
    defaultLevel: Level,
    subjectLevel: map<string, Level>,
    globalMode: Option<Mode>,
    defaultMode: Mode,
    subjectMode: map<string, Mode>,
    maxId: int,
    nextVersions: map<string, int>)

  function WithDefaults(level: Level, mode: Mode): State {
    State(map[], map[], map[], map[], None, level, map[], None, mode, map[], 0, map[])
  }

  function KeyOf(f: Formats, schema: Schema): string {
    DedupKey(f.canon(schema.ty, schema.text), schema.references, schema.messageType)
  }

  // ------------------------------------------------------------------
  // The versions of one subject
  // ------------------------------------------------------------------

  function Find(vs: seq<Entry>, version: int): Option<Entry> {
    if vs == [] then None else if vs[0].version == version then Some(vs[0]) else Find(vs[1..], version)
  }

  function FindId(vs: seq<Entry>, id: int, includeDeleted: bool): Option<Entry> {
    if vs == [] then None
    else if vs[0].id == id && (includeDeleted || !vs[0].deleted) then Some(vs[0])
    else FindId(vs[1..], id, includeDeleted)
  }

  function Replace(vs: seq<Entry>, e: Entry): seq<Entry> {
    if vs == [] then [] else if vs[0].version == e.version then [e] + vs[1..] else [vs[0]] + Replace(vs[1..], e)
  }

  // Where a stable sort by version puts one more entry pushed at the end.
  function Insert(vs: seq<Entry>, e: Entry): seq<Entry> {
    if vs == [] || vs[|vs| - 1].version <= e.version then vs + [e]
    else Insert(vs[..|vs| - 1], e) + [vs[|vs| - 1]]
  }

  function Upsert(vs: seq<Entry>, e: Entry): seq<Entry> {
    if Find(vs, e.version).Some? then Replace(vs, e) else Insert(vs, e)
  }

  function MarkDeleted(vs: seq<Entry>): seq<Entry> {
    seq(|vs|, i requires 0 <= i < |vs| => vs[i].(deleted := true))
  }

  function Without(vs: seq<Entry>, version: int): seq<Entry> {
    if vs == [] then [] else (if vs[0].version == version then [] else [vs[0]]) + Without(vs[1..], version)
  }

  function LiveOf(vs: seq<Entry>): seq<Entry> {
    if vs == [] then [] else (if vs[0].deleted then [] else [vs[0]]) + LiveOf(vs[1..])
  }

  function Versions(vs: seq<Entry>): seq<int> { seq(|vs|, i requires 0 <= i < |vs| => vs[i].version) }

  ghost predicate Ascending(vs: seq<Entry>) {
    forall i, j :: 0 <= i < j < |vs| ==> vs[i].version < vs[j].version
  }

  function Of(s: State, subject: string): seq<Entry> {
    if subject in s.subjects then s.subjects[subject] else []
  }

  function Lookup(s: State, subject: string, version: int): Option<Entry> {
    Find(Of(s, subject), version)
  }

  // ------------------------------------------------------------------
  // Reference closures
  // ------------------------------------------------------------------

  // The schema a (subject, version) names, soft-deleted versions included.
  function SchemaAt(s: State, key: Pair): Option<Schema> {
    match Lookup(s, key.0, key.1)
    case None => None
    case Some(e) => if e.id in s.byId then Some(s.byId[e.id]) else None
  }

  function Target(r: Reference): Pair { (r.subject, r.version) }

  function Present(s: State): set<Pair> {
    set subject <- s.subjects, e <- s.subjects[subject] :: (subject, e.version)
  }

  lemma {:induction false} FoundIn(vs: seq<Entry>, version: int)
    ensures match Find(vs, version)
            case Some(e) => e in vs && e.version == version
            case None => forall e <- vs :: e.version != version
  {
    if vs != [] {
      FoundIn(vs[1..], version);
    }
  }

  lemma FoundIsPresent(s: State, key: Pair)
    ensures Lookup(s, key.0, key.1).Some? <==> key in Present(s)
  {
    FoundIn(Of(s, key.0), key.1);
  }

  // Everything a reference can resolve to.
  type Catalogue = map<Pair, Schema>

  function CatalogueOf(s: State): (c: Catalogue)
    ensures forall key :: key in c <==> SchemaAt(s, key).Some?
    ensures forall key <- c :: SchemaAt(s, key) == Some(c[key])
  {
    assert forall key :: SchemaAt(s, key).Some? ==> key in Present(s) by {
      forall key | SchemaAt(s, key).Some? ensures key in Present(s) { FoundIsPresent(s, key); }
    }
    map key | key in Present(s) && SchemaAt(s, key).Some? :: SchemaAt(s, key).value
  }

  datatype Walk = Walk(out: seq<Resolved>, names: set<string>, visited: set<Pair>)

  function Emit(w: Walk, r: Reference, schema: Schema): Walk {
    if r.name in w.names then w
    else w.(out := w.out + [Resolved(r.name, schema.ty, schema.text)], names := w.names + {r.name})
  }

  /** The depth-first walk over references; the error names the first reference that is absent. */
  function ResolveInto(c: Catalogue, references: seq<Reference>, w: Walk): (result: Result<Walk, Reference>)
    ensures result.Ok? ==> w.visited <= result.value.visited
    decreases |c.Keys - w.visited|, |references|
  {
    if references == [] then Ok(w)
    else
      var r := references[0];
      if Target(r) in w.visited then ResolveInto(c, references[1..], w)
      else if Target(r) !in c then Err(r)
      else
        FewerLeft(c.Keys, w.visited, Target(r), w.visited + {Target(r)});
        var inner := ResolveInto(c, c[Target(r)].references, w.(visited := w.visited + {Target(r)}));
        if inner.Err? then inner
        else
          FewerLeft(c.Keys, w.visited, Target(r), inner.value.visited);
          ResolveInto(c, references[1..], Emit(inner.value, r, c[Target(r)]))
  }

  lemma FewerLeft<T>(all: set<T>, before: set<T>, x: T, after: set<T>)
    requires x in all && x !in before && before + {x} <= after
    ensures |all - after| < |all - before|
  {
    Fewer(all - after, all - before - {x});
    assert all - before == (all - before - {x}) + {x};
  }

  lemma {:induction false} Fewer<T>(a: set<T>, b: set<T>)
    requires a <= b
    ensures |a| <= |b|
  {
    if a != {} {
      var x :| x in a;
      Fewer(a - {x}, b - {x});
    }
  }

  const START: Walk := Walk([], {}, {})

  function ResolveClosure(s: State, references: seq<Reference>): Result<seq<Resolved>, Reference> {
    match ResolveInto(CatalogueOf(s), references, START)
    case Ok(w) => Ok(w.out)
    case Err(r) => Err(r)
  }

  // ------------------------------------------------------------------
  // Mutators
  // ------------------------------------------------------------------

  function Max(a: int, b: int): int { if a < b then b else a }

  function SaturatingNext(version: int): int { if version >= MAX_VERSION then MAX_VERSION else version + 1 }

  function NextVersion(s: State, subject: string): int {
    if subject in s.nextVersions then s.nextVersions[subject] else 1
  }

  // The part of the store that only SCHEMA records change.
  ghost predicate SameIdentities(s: State, t: State) {
    s.byId == t.byId && s.byCanonical == t.byCanonical && s.canonicalById == t.canonicalById && s.maxId == t.maxId
  }

  ghost predicate SameSettings(s: State, t: State) {
    && s.globalLevel == t.globalLevel && s.defaultLevel == t.defaultLevel && s.subjectLevel == t.subjectLevel
    && s.globalMode == t.globalMode && s.defaultMode == t.defaultMode && s.subjectMode == t.subjectMode
  }

  function ObserveNext(s: State, subject: string, next: int): (t: State)
    ensures SameIdentities(s, t) && SameSettings(s, t) && t.subjects == s.subjects
  {
    s.(nextVersions := s.nextVersions[subject := if subject in s.nextVersions then Max(s.nextVersions[subject], next)
                                                 else next])
  }

  function ObserveVersion(s: State, subject: string, version: int): State {
    ObserveNext(s, subject, SaturatingNext(version))
  }

  datatype SchemaValue = SchemaValue(subject: string, version: int, id: int, schema: Schema, deleted: bool)

  // Everything but the stored schemas and their indexes.
  ghost predicate SameVersions(s: State, t: State) {
    SameSettings(s, t) && s.subjects == t.subjects && s.nextVersions == t.nextVersions && s.maxId == t.maxId
  }

  // Forget the identity an id was indexed under.
  function Unindex(s: State, id: int): (t: State)
    ensures SameVersions(s, t) && t.byId == s.byId
  {
    if id !in s.canonicalById then s
    else
      var key := s.canonicalById[id];
      var s1 := s.(canonicalById := s.canonicalById - {id});
      if key in s.byCanonical && s.byCanonical[key] == id then s1.(byCanonical := s.byCanonical - {key}) else s1
  }

  // Index an id under a key, taking the key over from any other id.
  function Index(s: State, id: int, key: string): (t: State)
    ensures SameVersions(s, t) && t.byId == s.byId
  {
    var stolen := key in s.byCanonical && s.byCanonical[key] != id
                  && s.byCanonical[key] in s.canonicalById && s.canonicalById[s.byCanonical[key]] == key;
    var byId := if stolen then s.canonicalById - {s.byCanonical[key]} else s.canonicalById;
    s.(byCanonical := s.byCanonical[key := id], canonicalById := byId[id := key])
  }

  function Indexable(f: Formats, s: State, schema: Schema): bool {
    match ResolveClosure(s, schema.references)
    case Ok(resolved) => f.parses(schema.ty, schema.text, resolved)
    case Err(_) => false
  }

  function BindId(f: Formats, s: State, id: int, schema: Schema): (t: State)
    ensures SameVersions(s, t) && t.byId == s.byId[id := schema]
  {
    var s1 := Unindex(s, id);
    var s2 := s1.(byId := s1.byId[id := schema]);
    if Indexable(f, s2, schema) then Index(s2, id, KeyOf(f, schema)) else s2
  }

  function PutEntry(s: State, subject: string, e: Entry): State {
    s.(subjects := s.subjects[subject := Upsert(Of(s, subject), e)])
  }

  /** Fold one SCHEMA record. */
  function ApplySchema(f: Formats, s: State, v: SchemaValue): (t: State)
    ensures SameSettings(s, t) && t.byId == s.byId[v.id := v.schema] && t.maxId == Max(s.maxId, v.id)
  {
    var s1 := ObserveVersion(s.(maxId := Max(s.maxId, v.id)), v.subject, v.version);
    PutEntry(BindId(f, s1, v.id, v.schema), v.subject, Entry(v.version, v.id, v.deleted))
  }

  function SoftDeleteSubject(s: State, subject: string): (t: State)
    ensures SameIdentities(s, t) && SameSettings(s, t)
  {
    if Of(s, subject) == [] then s else s.(subjects := s.subjects[subject := MarkDeleted(Of(s, subject))])
  }

  function PermanentDelete(s: State, subject: string, version: int): (t: State)
    ensures SameIdentities(s, t) && SameSettings(s, t)
  {
    var s1 := ObserveVersion(s, subject, version);
    if subject !in s1.subjects then s1
    else
      var vs := Without(s1.subjects[subject], version);
      if |vs| == |s1.subjects[subject]| then s1
      else if vs == [] then s1.(subjects := s1.subjects - {subject})
      else s1.(subjects := s1.subjects[subject := vs])
  }

  datatype RegisterError = ReferenceNotFound(reference: Reference) | InvalidSchema | IdsExhausted

  function FindUnder(s: State, subject: string, key: string, includeDeleted: bool): Option<Registered> {
    if key !in s.byCanonical then None
    else match FindId(Of(s, subject), s.byCanonical[key], includeDeleted)
      case Some(e) => Some(Registered(e.id, e.version))
      case None => None
  }

  // The id of an identity seen before, else the next one.
  function Allocated(s: State, key: string, schema: Schema): (t: State)
    ensures key in t.byCanonical && t.subjects == s.subjects && t.nextVersions == s.nextVersions
  {
    if key in s.byCanonical then s
    else s.(maxId := s.maxId + 1, byCanonical := s.byCanonical[key := s.maxId + 1],
            canonicalById := s.canonicalById[s.maxId + 1 := key], byId := s.byId[s.maxId + 1 := schema])
  }

  // The next version of the subject, live under `id`.
  function Enlisted(s: State, subject: string, id: int): State {
    var t := ObserveVersion(s, subject, NextVersion(s, subject));
    t.(subjects := t.subjects[subject := Of(t, subject) + [Entry(NextVersion(s, subject), id, false)]])
  }

  /** Decide id and version, and apply the decision to the same store. */
  function Register(f: Formats, s: State, subject: string, schema: Schema): Result<(State, Registered), RegisterError> {
    match ResolveClosure(s, schema.references)
    case Err(r) => Err(ReferenceNotFound(r))
    case Ok(resolved) =>
      if !f.parses(schema.ty, schema.text, resolved) then Err(InvalidSchema)
      else
        var key := KeyOf(f, schema);
        match FindUnder(s, subject, key, true)
        case Some(existing) => Ok((s, existing))
        case None =>
          if key !in s.byCanonical && s.maxId >= MAX_VERSION then Err(IdsExhausted)
          else
            var s1 := Allocated(s, key, schema);
            var id := s1.byCanonical[key];
            Ok((Enlisted(s1, subject, id), Registered(id, NextVersion(s1, subject))))
  }

  function EffectiveMode(s: State, subject: string): Mode {
    if subject in s.subjectMode then s.subjectMode[subject] else GlobalMode(s)
  }

  function GlobalMode(s: State): Mode { if s.globalMode.Some? then s.globalMode.value else s.defaultMode }

  function EffectiveLevel(s: State, subject: string): Level {
    if subject in s.subjectLevel then s.subjectLevel[subject]
    else if s.globalLevel.Some? then s.globalLevel.value else s.defaultLevel
  }

  // ------------------------------------------------------------------
  // Records
  // ------------------------------------------------------------------

  datatype SchemaKey = SchemaKey(subject: string, version: int)

  datatype Record =
    | SchemaRecord(key: SchemaKey, value: SchemaValue)
    | Tombstone(key: SchemaKey)
    | DeleteSubject(subject: string, version: int)
    | HighWater(subject: string, next: int)
    | ModeRecord(scope: Option<string>, mode: Option<Mode>)
    | ConfigRecord(scope: Option<string>, level: Option<Level>)
    | Noop

  function ApplyMode(s: State, scope: Option<string>, mode: Option<Mode>): (t: State)
    ensures SameIdentities(s, t) && t.subjects == s.subjects && t.nextVersions == s.nextVersions
  {
    match scope
    case None => s.(globalMode := mode)
    case Some(subject) =>
      if mode.Some? then s.(subjectMode := s.subjectMode[subject := mode.value])
      else s.(subjectMode := s.subjectMode - {subject})
  }

  // A null global CONFIG record is ignored.
  function ApplyConfig(s: State, scope: Option<string>, level: Option<Level>): (t: State)
    ensures SameIdentities(s, t) && t.subjects == s.subjects && t.nextVersions == s.nextVersions
  {
    match scope
    case None => if level.Some? then s.(globalLevel := level) else s
    case Some(subject) =>
      if level.Some? then s.(subjectLevel := s.subjectLevel[subject := level.value])
      else s.(subjectLevel := s.subjectLevel - {subject})
  }

  /** Fold one decoded record into the store. */
  function Apply(f: Formats, s: State, r: Record): State {
    match r
    case SchemaRecord(_, v) => ApplySchema(f, s, v)
    case Tombstone(k) => PermanentDelete(s, k.subject, k.version)
    case DeleteSubject(subject, _) => SoftDeleteSubject(s, subject)
    case HighWater(subject, next) => ObserveNext(s, subject, next)
    case ModeRecord(scope, mode) => ApplyMode(s, scope, mode)
    case ConfigRecord(scope, level) => ApplyConfig(s, scope, level)
    case Noop => s
  }

  function ApplyAll(f: Formats, s: State, records: seq<Record>): State {
    if records == [] then s else Apply(f, ApplyAll(f, s, records[..|records| - 1]), records[|records| - 1])
  }
}

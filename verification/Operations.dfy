/** What each API request decides from the store snapshots it reads: the records it appends. */
module Operations {
  import opened Wrappers
  import opened Identity
  import opened Store

  datatype Request =
    | RegisterSchema(subject: string, ty: SchemaType, text: string, references: seq<Reference>,
                     messageType: Option<string>, importId: Option<int>, importVersion: Option<int>)
    | SetLevel(scope: Option<string>, level: Level)
    | DeleteLevel(subject: string)
    | SoftDeleteVersion(subject: string, version: int)
    | PermanentDeleteVersion(subject: string, version: int)
    | SoftDeleteAll(subject: string)
    | PermanentDeleteAll(subject: string)
    | SetMode(scope: Option<string>, mode: Mode)
    | ClearMode(subject: string)

  // The i-th time a write reads the live store it sees the i-th snapshot.
  function Read(snapshots: seq<State>, i: nat): State
    requires snapshots != []
  {
    if i < |snapshots| then snapshots[i] else snapshots[|snapshots| - 1]
  }

  function Refers(references: seq<Reference>, key: Pair): bool {
    exists r <- references :: Target(r) == key
  }

  function ReferencedBy(s: State, key: Pair, includeDeleted: bool): set<int> {
    set subject <- s.subjects, e <- s.subjects[subject] |
      (includeDeleted || !e.deleted) && e.id in s.byId && Refers(s.byId[e.id].references, key) :: e.id
  }

  // ------------------------------------------------------------------
  // Compatibility of a candidate
  // ------------------------------------------------------------------

  predicate IsTransitive(level: Level) {
    level.BackwardTransitive? || level.ForwardTransitive? || level.FullTransitive?
  }

  predicate NewReadsOld(level: Level) {
    level.Backward? || level.BackwardTransitive? || level.Full? || level.FullTransitive?
  }

  predicate OldReadsNew(level: Level) {
    level.Forward? || level.ForwardTransitive? || level.Full? || level.FullTransitive?
  }

  predicate CheckPair(f: Formats, level: Level, ty: SchemaType, candidate: string, refs: seq<Resolved>,
          existing: string, existingRefs: seq<Resolved>) {
    && (NewReadsOld(level) ==> f.check(ty, candidate, existing, refs, existingRefs))
    && (OldReadsNew(level) ==> f.check(ty, existing, candidate, existingRefs, refs))
  }

  function ResolvedOrEmpty(s: State, references: seq<Reference>): seq<Resolved> {
    match ResolveClosure(s, references) case Ok(out) => out case Err(_) => []
  }

  // Live entries whose schema is stored, in ascending order.
  function LiveSchemas(s: State, vs: seq<Entry>): seq<Schema> {
    if vs == [] then []
    else (if !vs[0].deleted && vs[0].id in s.byId then [s.byId[vs[0].id]] else []) + LiveSchemas(s, vs[1..])
  }

  predicate CheckAll(f: Formats, s: State, level: Level, ty: SchemaType, candidate: string, refs: seq<Resolved>,
          targets: seq<Schema>) {
    forall x <- targets :: CheckPair(f, level, ty, candidate, refs, x.text, ResolvedOrEmpty(s, x.references))
  }

  predicate CheckRegistration(f: Formats, s: State, subject: string, ty: SchemaType, candidate: string,
          refs: seq<Resolved>) {
    var level, versions := EffectiveLevel(s, subject), LiveSchemas(s, Of(s, subject));
    level.NoLevel? || versions == []
    || CheckAll(f, s, level, ty, candidate, refs, if IsTransitive(level) then versions else versions[|versions| - 1..])
  }

  // ------------------------------------------------------------------
  // Registration
  // ------------------------------------------------------------------

  datatype Conflict = NoConflict | Conflicts | Unresolvable

  function SchemaIdConflicts(f: Formats, s: State, id: int, schema: Schema): Conflict {
    if id !in s.byId then NoConflict
    else if s.byId[id].ty != schema.ty then Conflicts
    else if !Indexable(f, s, s.byId[id]) || !Indexable(f, s, schema) then Unresolvable
    else if KeyOf(f, s.byId[id]) != KeyOf(f, schema) then Conflicts else NoConflict
  }

  function FindUnderSubject(f: Formats, s: State, subject: string, schema: Schema): Option<Registered> {
    if Indexable(f, s, schema) then FindUnder(s, subject, KeyOf(f, schema), false) else None
  }

  function SchemaRecordOf(subject: string, version: int, id: int, schema: Schema, deleted: bool): Record {
    SchemaRecord(SchemaKey(subject, version), SchemaValue(subject, version, id, schema, deleted))
  }

  function PlanRegister(f: Formats, q: Request, snapshots: seq<State>): seq<Record>
    requires q.RegisterSchema? && snapshots != []
  {
    var mode := EffectiveMode(Read(snapshots, 0), q.subject);
    var closure := ResolveClosure(Read(snapshots, 1), q.references);
    if mode.ReadOnly? || closure.Err? || !f.parses(q.ty, q.text, closure.value) then []
    else
      var schema := Schema(q.ty, f.normal(q.ty, q.text, closure.value), q.references, q.messageType);
      if mode.Import? then
        if q.importId.None? || q.importVersion.None? || !f.parses(q.ty, schema.text, closure.value)
           || SchemaIdConflicts(f, Read(snapshots, 2), q.importId.value, schema) != NoConflict then []
        else [SchemaRecordOf(q.subject, q.importVersion.value, q.importId.value, schema, false)]
      else if FindUnderSubject(f, Read(snapshots, 2), q.subject, schema).Some? then []
      else if !CheckRegistration(f, Read(snapshots, 3), q.subject, q.ty, schema.text, closure.value) then []
      else
        match Register(f, Read(snapshots, 4), q.subject, schema)
        case Ok((_, reg)) => [SchemaRecordOf(q.subject, reg.version, reg.id, schema, false)]
        case Err(_) => []
  }

  // ------------------------------------------------------------------
  // Deletes and settings
  // ------------------------------------------------------------------

  function MaxVersion(vs: seq<Entry>): int
    requires vs != []
  {
    if |vs| == 1 then vs[0].version else Max(vs[0].version, MaxVersion(vs[1..]))
  }

  // One fresh read of the store for each version that must not have a live referrer.
  predicate Unreferenced(snapshots: seq<State>, i: nat, subject: string, vs: seq<Entry>)
    requires snapshots != []
    decreases |vs|
  {
    || vs == []
    || (&& ReferencedBy(Read(snapshots, i), (subject, vs[0].version), false) == {}
        && Unreferenced(snapshots, i + 1, subject, vs[1..]))
  }

  function Tombstones(subject: string, vs: seq<Entry>): seq<Record> {
    seq(|vs|, i requires 0 <= i < |vs| => Tombstone(SchemaKey(subject, vs[i].version)))
  }

  predicate Writable(s: State, subject: string) { !EffectiveMode(s, subject).ReadOnly? }

  function PlanSoftDelete(subject: string, version: int, snapshots: seq<State>): seq<Record>
    requires snapshots != []
  {
    var s := Read(snapshots, 1);
    var found := Lookup(s, subject, version);
    if !Writable(Read(snapshots, 0), subject) || found.None? || found.value.id !in s.byId then []
    else if ReferencedBy(Read(snapshots, 2), (subject, version), false) != {} then []
    else [SchemaRecordOf(subject, version, found.value.id, s.byId[found.value.id], true)]
  }

  function PlanPermanentDelete(subject: string, version: int, snapshots: seq<State>): seq<Record>
    requires snapshots != []
  {
    var s := Read(snapshots, 1);
    var found := Lookup(s, subject, version);
    if !Writable(Read(snapshots, 0), subject) || found.None? || found.value.id !in s.byId then []
    else if !found.value.deleted then []
    else if ReferencedBy(Read(snapshots, 2), (subject, version), false) != {} then []
    else [HighWater(subject, NextVersion(Read(snapshots, 3), subject)), Tombstone(SchemaKey(subject, version))]
  }

  function PlanSoftDeleteAll(subject: string, snapshots: seq<State>): seq<Record>
    requires snapshots != []
  {
    var live := LiveOf(Of(Read(snapshots, 1), subject));
    if !Writable(Read(snapshots, 0), subject) || live == [] || !Unreferenced(snapshots, 2, subject, live) then []
    else [DeleteSubject(subject, MaxVersion(live))]
  }

  function PlanPermanentDeleteAll(subject: string, snapshots: seq<State>): seq<Record>
    requires snapshots != []
  {
    var vs := Of(Read(snapshots, 1), subject);
    if !Writable(Read(snapshots, 0), subject) || vs == [] || LiveOf(vs) != [] then []
    else if !Unreferenced(snapshots, 3, subject, vs) then []
    else [HighWater(subject, NextVersion(Read(snapshots, 2), subject))] + Tombstones(subject, vs)
         + [ConfigRecord(Some(subject), None), ModeRecord(Some(subject), None)]
  }

  /** The records a gated write appends, in order; none when the request is refused or already done. */
  function Plan(f: Formats, q: Request, snapshots: seq<State>): seq<Record> {
    if snapshots == [] then []
    else
      var s := Read(snapshots, 0);
      match q
      case RegisterSchema(_, _, _, _, _, _, _) => PlanRegister(f, q, snapshots)
      case SetLevel(scope, level) =>
        var mode := if scope.Some? then EffectiveMode(s, scope.value) else GlobalMode(s);
        if mode.ReadOnly? then [] else [ConfigRecord(scope, Some(level))]
      case DeleteLevel(subject) => if subject in s.subjectLevel then [ConfigRecord(Some(subject), None)] else []
      case SoftDeleteVersion(subject, version) => PlanSoftDelete(subject, version, snapshots)
      case PermanentDeleteVersion(subject, version) => PlanPermanentDelete(subject, version, snapshots)
      case SoftDeleteAll(subject) => PlanSoftDeleteAll(subject, snapshots)
      case PermanentDeleteAll(subject) => PlanPermanentDeleteAll(subject, snapshots)
      case SetMode(None, mode) => if mode.Import? && (exists x <- s.subjects :: s.subjects[x] != []) then []
                                  else [ModeRecord(None, Some(mode))]
      case SetMode(Some(subject), mode) => if mode.Import? && Of(s, subject) != [] then []
                                           else [ModeRecord(Some(subject), Some(mode))]
      case ClearMode(subject) => [ModeRecord(Some(subject), None)]
  }

  lemma {:induction false} UnreferencedAt(snapshots: seq<State>, s: State, i: nat, subject: string, vs: seq<Entry>)
    requires snapshots != [] && forall x <- snapshots :: x == s
    ensures Unreferenced(snapshots, i, subject, vs) <==>
          forall e <- vs :: ReferencedBy(s, (subject, e.version), false) == {}
    decreases |vs|
  {
    assert Read(snapshots, i) in snapshots;
    if vs != [] {
      UnreferencedAt(snapshots, s, i + 1, subject, vs[1..]);
      assert vs == [vs[0]] + vs[1..];
    }
  }

  /** A write whose snapshots are all the same store plans what one snapshot of it would. */
  lemma PlanAt(f: Formats, q: Request, snapshots: seq<State>, s: State)
    requires snapshots != [] && forall x <- snapshots :: x == s
    ensures Plan(f, q, snapshots) == Plan(f, q, [s])
  {
    forall i: nat ensures Read(snapshots, i) == s && Read([s], i) == s {
      assert Read(snapshots, i) in snapshots;
    }
    if q.SoftDeleteAll? {
      UnreferencedAt(snapshots, s, 2, q.subject, LiveOf(Of(s, q.subject)));
      UnreferencedAt([s], s, 2, q.subject, LiveOf(Of(s, q.subject)));
    } else if q.PermanentDeleteAll? {
      UnreferencedAt(snapshots, s, 3, q.subject, Of(s, q.subject));
      UnreferencedAt([s], s, 3, q.subject, Of(s, q.subject));
    }
  }
}

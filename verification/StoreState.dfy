/** The store as the object that the reader folds records into, each method proved against the
    value functions of the store. */
module StoreStates {
  import opened Wrappers
  import opened Identity
  import opened Store
  import opened StoreInvariant

  // ------------------------------------------------------------------
  // Loops over the versions of one subject
  // ------------------------------------------------------------------

  /** The position of a version. */
  method PositionOf(vs: seq<Entry>, version: int) returns (i: nat)
    ensures i <= |vs| && (i == |vs| <==> Find(vs, version).None?)
    ensures i < |vs| ==> vs[i].version == version && Find(vs, version) == Some(vs[i])
    ensures forall k :: 0 <= k < i ==> vs[k].version != version
  {
    i := 0;
    while i < |vs| && vs[i].version != version
      invariant i <= |vs| && Find(vs, version) == Find(vs[i..], version)
      invariant forall k :: 0 <= k < i ==> vs[k].version != version
    {
      assert vs[i..][1..] == vs[i + 1..];
      i := i + 1;
    }
  }

  lemma {:induction false} ReplacedAt(vs: seq<Entry>, e: Entry, i: nat)
    requires i < |vs| && vs[i].version == e.version && forall k :: 0 <= k < i ==> vs[k].version != e.version
    ensures Replace(vs, e) == vs[i := e]
  {
    if i > 0 {
      ReplacedAt(vs[1..], e, i - 1);
      assert vs == [vs[0]] + vs[1..];
    }
  }

  lemma {:induction false} InsertedAt(vs: seq<Entry>, e: Entry, i: nat)
    requires i <= |vs| && (i > 0 ==> vs[i - 1].version <= e.version)
    requires forall k :: i <= k < |vs| ==> vs[k].version > e.version
    ensures Insert(vs, e) == vs[..i] + [e] + vs[i..]
  {
    if i < |vs| {
      InsertedAt(vs[..|vs| - 1], e, i);
      assert vs[..|vs| - 1][..i] == vs[..i] && vs[..|vs| - 1][i..] + [vs[|vs| - 1]] == vs[i..];
    }
  }

  /** A stable insertion after every entry with a version no larger. */
  method InsertSorted(vs: seq<Entry>, e: Entry) returns (r: seq<Entry>)
    ensures r == Insert(vs, e)
  {
    var i := |vs|;
    while i > 0 && vs[i - 1].version > e.version
      invariant 0 <= i <= |vs| && forall k :: i <= k < |vs| ==> vs[k].version > e.version
    {
      i := i - 1;
    }
    InsertedAt(vs, e, i);
    r := vs[..i] + [e] + vs[i..];
  }

  /** Overwrite the entry with this version, or add one and sort. */
  method UpsertEntry(vs: seq<Entry>, e: Entry) returns (r: seq<Entry>)
    ensures r == Upsert(vs, e)
  {
    var i := PositionOf(vs, e.version);
    if i < |vs| {
      ReplacedAt(vs, e, i);
      r := vs[i := e];
    } else {
      r := InsertSorted(vs, e);
    }
  }

  method FlagAll(vs: seq<Entry>) returns (r: seq<Entry>)
    ensures r == MarkDeleted(vs)
  {
    r := vs;
    for i := 0 to |vs|
      invariant |r| == |vs| && r[i..] == vs[i..] && forall k :: 0 <= k < i ==> r[k] == vs[k].(deleted := true)
    {
      assert r[i] == r[i..][0] == vs[i..][0] == vs[i];
      r := r[i := r[i].(deleted := true)];
      assert r[i + 1..] == vs[i + 1..];
    }
  }

  lemma {:induction false} WithoutSnoc(vs: seq<Entry>, e: Entry, version: int)
    ensures Without(vs + [e], version) == Without(vs, version) + if e.version == version then [] else [e]
  {
    if vs == [] {
      assert vs + [e] == [e] && [e][1..] == [];
    } else {
      assert (vs + [e])[1..] == vs[1..] + [e];
      WithoutSnoc(vs[1..], e, version);
    }
  }

  method Retain(vs: seq<Entry>, version: int) returns (r: seq<Entry>)
    ensures r == Without(vs, version)
  {
    r := [];
    for i := 0 to |vs|
      invariant r == Without(vs[..i], version)
    {
      WithoutSnoc(vs[..i], vs[i], version);
      assert vs[..i] + [vs[i]] == vs[..i + 1];
      if vs[i].version != version {
        r := r + [vs[i]];
      }
    }
    assert vs[..|vs|] == vs;
  }

  method FirstWithId(vs: seq<Entry>, id: int, includeDeleted: bool) returns (found: Option<Entry>)
    ensures found == FindId(vs, id, includeDeleted)
  {
    for i := 0 to |vs|
      invariant FindId(vs, id, includeDeleted) == FindId(vs[i..], id, includeDeleted)
    {
      assert vs[i..][1..] == vs[i + 1..];
      if vs[i].id == id && (includeDeleted || !vs[i].deleted) {
        return Some(vs[i]);
      }
    }
    return None;
  }

  // ------------------------------------------------------------------
  // Reference closures
  // ------------------------------------------------------------------

  /** What one closure walk fills in. */
  class ClosureWalk {
    var out: seq<Resolved>
    var names: set<string>
    var visited: set<Pair>

    constructor ()
      ensures View() == START
    {
      out, names, visited := [], {}, {};
    }

    function View(): Walk
      reads this
    {
      Walk(out, names, visited)
    }

    method Enter(key: Pair)
      modifies this`visited
      ensures View() == old(View()).(visited := old(visited) + {key})
    {
      visited := visited + {key};
    }

    method Push(r: Reference, schema: Schema)
      modifies this`out, this`names
      ensures View() == Emit(old(View()), r, schema)
    {
      if r.name !in names {
        names := names + {r.name};
        out := out + [Resolved(r.name, schema.ty, schema.text)];
      }
    }
  }

  class StoreState {
    const f: Formats
    var subjects: map<string, seq<Entry>>
    var byId: map<int, Schema>
    var byCanonical: map<string, int>
    var canonicalById: map<int, string>
    var globalLevel: Option<Level>
    var defaultLevel: Level
    var subjectLevel: map<string, Level>
    var globalMode: Option<Mode>
    var defaultMode: Mode
    var subjectMode: map<string, Mode>
    var maxId: int
    var nextVersions: map<string, int>

    constructor (f: Formats, level: Level, mode: Mode)
      ensures this.f == f && View() == WithDefaults(level, mode)
    {
      this.f := f;
      subjects, byId, byCanonical, canonicalById := map[], map[], map[], map[];
      globalLevel, defaultLevel, subjectLevel := None, level, map[];
      globalMode, defaultMode, subjectMode := None, mode, map[];
      maxId, nextVersions := 0, map[];
    }

    function View(): State
      reads this
    {
      State(subjects, byId, byCanonical, canonicalById, globalLevel, defaultLevel, subjectLevel,
            globalMode, defaultMode, subjectMode, maxId, nextVersions)
    }

    method IdOf(subject: string, version: int) returns (id: Option<int>)
      ensures id == match Lookup(View(), subject, version) case Some(e) => Some(e.id) case None => None
    {
      if subject !in subjects {
        return None;
      }
      var i := PositionOf(subjects[subject], version);
      return if i < |subjects[subject]| then Some(subjects[subject][i].id) else None;
    }

    method SchemaOf(subject: string, version: int) returns (schema: Option<Schema>)
      ensures schema == SchemaAt(View(), (subject, version))
    {
      var id := IdOf(subject, version);
      return if id.Some? && id.value in byId then Some(byId[id.value]) else None;
    }

    // `c` is the catalogue of this store.
    method ResolveReferences(ghost c: Catalogue, references: seq<Reference>,
            walk: ClosureWalk) returns (missing: Option<Reference>)
      requires c == CatalogueOf(View())
      modifies walk
      ensures match ResolveInto(c, references, old(walk.View()))
              case Ok(w) => missing == None && walk.View() == w
              case Err(r) => missing == Some(r)
      decreases |c.Keys - walk.View().visited|
    {
      ghost var start := walk.View();
      for i := 0 to |references|
        invariant ResolveInto(c, references, start) == ResolveInto(c, references[i..], walk.View())
        invariant start.visited <= walk.View().visited
      {
        var r := references[i];
        assert references[i..][0] == r && references[i..][1..] == references[i + 1..];
        if (r.subject, r.version) in walk.visited {
          continue;
        }
        walk.Enter((r.subject, r.version));
        var schema := SchemaOf(r.subject, r.version);
        if schema.None? {
          return Some(r);
        }
        FewerLeft(c.Keys, start.visited, Target(r), walk.View().visited);
        var failed := ResolveReferences(c, schema.value.references, walk);
        if failed.Some? {
          return failed;
        }
        walk.Push(r, schema.value);
      }
      return None;
    }

    method Resolve(references: seq<Reference>) returns (r: Result<seq<Resolved>, Reference>)
      ensures r == ResolveClosure(View(), references)
    {
      var walk := new ClosureWalk();
      var missing := ResolveReferences(CatalogueOf(View()), references, walk);
      return match missing case None => Ok(walk.out) case Some(reference) => Err(reference);
    }

    method ObserveNextVersion(subject: string, next: int)
      modifies this`nextVersions
      ensures View() == ObserveNext(old(View()), subject, next)
    {
      if subject in nextVersions {
        if nextVersions[subject] < next {
          nextVersions := nextVersions[subject := next];
        } else {
          assert nextVersions[subject := nextVersions[subject]] == nextVersions;
        }
      } else {
        nextVersions := nextVersions[subject := next];
      }
    }

    method ObserveVersionNumber(subject: string, version: int)
      modifies this`nextVersions
      ensures View() == ObserveVersion(old(View()), subject, version)
    {
      ObserveNextVersion(subject, SaturatingNext(version));
    }

    // Forget the identity an id was indexed under.
    method UnindexId(id: int)
      modifies this`byCanonical, this`canonicalById
      ensures View() == Unindex(old(View()), id)
    {
      if id in canonicalById {
        var key := canonicalById[id];
        canonicalById := canonicalById - {id};
        if key in byCanonical && byCanonical[key] == id {
          byCanonical := byCanonical - {key};
        }
      }
    }

    method IndexId(id: int, key: string)
      modifies this`byCanonical, this`canonicalById
      ensures View() == Index(old(View()), id, key)
    {
      if key in byCanonical {
        var holder := byCanonical[key];
        byCanonical := byCanonical[key := id];
        if holder != id && holder in canonicalById && canonicalById[holder] == key {
          canonicalById := canonicalById - {holder};
        }
      } else {
        byCanonical := byCanonical[key := id];
      }
      canonicalById := canonicalById[id := key];
    }

    method Bind(id: int, schema: Schema)
      modifies this`byId, this`byCanonical, this`canonicalById
      ensures View() == BindId(f, old(View()), id, schema)
    {
      UnindexId(id);
      byId := byId[id := schema];
      var closure := Resolve(schema.references);
      if closure.Ok? && f.parses(schema.ty, schema.text, closure.value) {
        IndexId(id, KeyOf(f, schema));
      }
    }

    method ApplySchemaRecord(v: SchemaValue)
      modifies this
      ensures View() == ApplySchema(f, old(View()), v)
    {
      maxId := if maxId < v.id then v.id else maxId;
      ObserveVersionNumber(v.subject, v.version);
      Bind(v.id, v.schema);
      var vs := if v.subject in subjects then subjects[v.subject] else [];
      vs := UpsertEntry(vs, Entry(v.version, v.id, v.deleted));
      subjects := subjects[v.subject := vs];
    }

    method SoftDelete(subject: string) returns (versions: Option<seq<int>>)
      modifies this`subjects
      ensures View() == SoftDeleteSubject(old(View()), subject)
      ensures versions == if Of(old(View()), subject) == [] then None else Some(Versions(Of(old(View()), subject)))
    {
      if subject !in subjects || subjects[subject] == [] {
        return None;
      }
      versions := Some(Versions(subjects[subject]));
      var flagged := FlagAll(subjects[subject]);
      subjects := subjects[subject := flagged];
    }

    method PermanentDeleteVersion(subject: string, version: int) returns (deleted: Option<int>)
      modifies this`subjects, this`nextVersions
      ensures View() == PermanentDelete(old(View()), subject, version)
      ensures deleted == if Lookup(old(View()), subject, version).Some? then Some(version) else None
    {
      ObserveVersionNumber(subject, version);
      if subject !in subjects {
        return None;
      }
      RetainedLength(subjects[subject], version);
      var vs := Retain(subjects[subject], version);
      if |vs| == |subjects[subject]| {
        return None;
      }
      subjects := if vs == [] then subjects - {subject} else subjects[subject := vs];
      return Some(version);
    }

    method ApplyRecord(r: Record)
      modifies this
      ensures View() == Apply(f, old(View()), r)
    {
      match r {
        case SchemaRecord(_, v) => ApplySchemaRecord(v);
        case Tombstone(k) => var _ := PermanentDeleteVersion(k.subject, k.version);
        case DeleteSubject(subject, _) => var _ := SoftDelete(subject);
        case HighWater(subject, next) => ObserveNextVersion(subject, next);
        case ModeRecord(None, mode) => globalMode := mode;
        case ModeRecord(Some(subject), mode) => subjectMode := if mode.Some? then subjectMode[subject := mode.value]
                                                               else subjectMode - {subject};
        case ConfigRecord(None, level) => globalLevel := if level.Some? then level else globalLevel;
        case ConfigRecord(Some(subject), level) =>
          subjectLevel := if level.Some? then subjectLevel[subject := level.value] else subjectLevel - {subject};
        case Noop =>
      }
    }

    method FindUnderSubjectCanonical(subject: string, key: string, includeDeleted: bool)
            returns (found: Option<Registered>)
      ensures found == FindUnder(View(), subject, key, includeDeleted)
    {
      if key !in byCanonical {
        return None;
      }
      var vs := if subject in subjects then subjects[subject] else [];
      var e := FirstWithId(vs, byCanonical[key], includeDeleted);
      return if e.Some? then Some(Registered(e.value.id, e.value.version)) else None;
    }

    method Allocate(key: string, schema: Schema) returns (id: int)
      modifies this`maxId, this`byCanonical, this`canonicalById, this`byId
      ensures View() == Allocated(old(View()), key, schema) && id == View().byCanonical[key]
    {
      if key in byCanonical {
        return byCanonical[key];
      }
      id := maxId + 1;
      maxId := id;
      byCanonical := byCanonical[key := id];
      canonicalById := canonicalById[id := key];
      byId := byId[id := schema];
    }

    method Enlist(subject: string, id: int) returns (version: int)
      modifies this`subjects, this`nextVersions
      ensures View() == Enlisted(old(View()), subject, id) && version == NextVersion(old(View()), subject)
    {
      version := if subject in nextVersions then nextVersions[subject] else 1;
      ObserveVersionNumber(subject, version);
      var vs := if subject in subjects then subjects[subject] else [];
      subjects := subjects[subject := vs + [Entry(version, id, false)]];
    }

    method RegisterSchema(subject: string, schema: Schema) returns (r: Result<Registered, RegisterError>)
      modifies this
      ensures match Register(f, old(View()), subject, schema)
              case Ok((after, registered)) => r == Ok(registered) && View() == after
              case Err(error) => r == Err(error) && View() == old(View())
      ensures r.Ok? && KeyOf(f, schema) !in old(byCanonical) ==>
                && r.value.id == old(maxId) + 1 == maxId
                && r.value.version == if subject in old(nextVersions) then old(nextVersions)[subject] else 1
    {
      var closure := Resolve(schema.references);
      if closure.Err? {
        return Err(ReferenceNotFound(closure.error));
      }
      if !f.parses(schema.ty, schema.text, closure.value) {
        return Err(InvalidSchema);
      }
      var key := KeyOf(f, schema);
      var existing := FindUnderSubjectCanonical(subject, key, true);
      if existing.Some? {
        return Ok(existing.value);
      }
      if key !in byCanonical && maxId >= MAX_VERSION {
        return Err(IdsExhausted);
      }
      var id := Allocate(key, schema);
      var version := Enlist(subject, id);
      return Ok(Registered(id, version));
    }
  }

  lemma {:induction false} RetainedLength(vs: seq<Entry>, version: int)
    ensures |Without(vs, version)| <= |vs| && (|Without(vs, version)| == |vs| <==> Find(vs, version).None?)
  {
    if vs != [] {
      RetainedLength(vs[1..], version);
    }
  }
}

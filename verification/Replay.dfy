/** Folding the record of a registration agrees with the decision taken on the clone. */
module Replay {
  import opened Wrappers
  import opened Identity
  import opened Store
  import opened StoreInvariant
  import opened Closure

  lemma {:induction false} FoundIdIn(vs: seq<Entry>, id: int, includeDeleted: bool)
    ensures match FindId(vs, id, includeDeleted)
            case Some(e) => e in vs && e.id == id && (includeDeleted || !e.deleted)
            case None => forall e <- vs :: e.id == id ==> e.deleted && !includeDeleted
  {
    if vs != [] {
      FoundIdIn(vs[1..], id, includeDeleted);
      assert vs == [vs[0]] + vs[1..];
    }
  }

  // The first entry with an id, when entries ascend, is the lowest version with it.
  lemma {:induction false} FoundIdIsLowest(vs: seq<Entry>, id: int, e: Entry)
    requires Ascending(vs) && e in vs && e.id == id && forall x <- vs :: x.id == id ==> e.version <= x.version
    ensures FindId(vs, id, true) == Some(e)
  {
    FoundIdIn(vs, id, true);
    assert FindId(vs, id, true).Some?;
    LowestFound(vs, id);
    FoundIff(vs, e);
    FoundIff(vs, FindId(vs, id, true).value);
  }

  lemma {:induction false} LowestFound(vs: seq<Entry>, id: int)
    requires Ascending(vs) && FindId(vs, id, true).Some?
    ensures forall x <- vs :: x.id == id ==> FindId(vs, id, true).value.version <= x.version
  {
    if vs[0].id != id {
      assert vs == [vs[0]] + vs[1..];
      LowestFound(vs[1..], id);
    }
  }

  lemma ApplySchemaEntries(f: Formats, s: State, v: SchemaValue)
    requires WF(f, s)
    ensures var t := ApplySchema(f, s, v);
            && t.subjects == s.subjects[v.subject := Upsert(Of(s, v.subject), Entry(v.version, v.id, v.deleted))]
            && t.byId == s.byId[v.id := v.schema] && t.maxId == Max(s.maxId, v.id)
            && t.nextVersions == ObserveVersion(s, v.subject, v.version).nextVersions
    ensures forall subject, version :: Lookup(ApplySchema(f, s, v), subject, version) ==
              if subject == v.subject && version == v.version then Some(Entry(v.version, v.id, v.deleted))
              else Lookup(s, subject, version)
  {
    var s1 := ObserveVersion(s.(maxId := Max(s.maxId, v.id)), v.subject, v.version);
    BindKeepsIndex(f, s1, v.id, v.schema);
    UpsertOf(s, v.subject, Entry(v.version, v.id, v.deleted));
  }

  lemma UpsertOf(s: State, subject: string, e: Entry)
    requires EntriesOk(s)
    ensures Ascending(Of(s, subject))
    ensures forall version :: Find(Upsert(Of(s, subject), e), version) == if version == e.version then Some(e)
                                                                          else Find(Of(s, subject), version)
  {
    UpsertEffect(Of(s, subject), e);
  }

  function RecordOf(subject: string, schema: Schema, reg: Registered): SchemaValue {
    SchemaValue(subject, reg.version, reg.id, schema, false)
  }

  /** Replaying the decided record makes exactly the decided version live with the decided id, and
      leaves every other version of every subject alone. */
  lemma ReplayMakesLive(f: Formats, s: State, subject: string, schema: Schema, reg: Registered, sub: string,
          version: int)
    requires WF(f, s) && Register(f, s, subject, schema).Ok? && Register(f, s, subject, schema).value.1 == reg
    ensures Lookup(ApplySchema(f, s, RecordOf(subject, schema, reg)), sub, version)
         == if sub == subject && version == reg.version then Some(Entry(reg.version, reg.id, false))
            else Lookup(s, sub, version)
  {
    ApplySchemaEntries(f, s, RecordOf(subject, schema, reg));
  }

  /** The decided version either carries the decided id already, or is unused; it is taken over from
      another id exactly when version numbers are exhausted. */
  lemma DecisionRebindsOnlyAtTheEnd(f: Formats, s: State, subject: string, schema: Schema, reg: Registered)
    requires WF(f, s) && Register(f, s, subject, schema).Ok? && Register(f, s, subject, schema).value.1 == reg
    ensures (Lookup(s, subject, reg.version).Some? && Lookup(s, subject, reg.version).value.id != reg.id)
        <==> && FindUnder(s, subject, KeyOf(f, schema), true).None? && MAX_VERSION <= NextVersion(s, subject)
             && Lookup(s, subject, NextVersion(s, subject)).Some?
  {
    var vs, key := Of(s, subject), KeyOf(f, schema);
    FoundIn(vs, reg.version);
    match FindUnder(s, subject, key, true)
    case Some(existing) =>
      FoundIdIn(vs, s.byCanonical[key], true);
      var e := FindId(vs, s.byCanonical[key], true).value;
      assert Ascending(vs);
      FoundIff(vs, e);
    case None =>
      if Lookup(s, subject, reg.version).Some? {
        var e := Lookup(s, subject, reg.version).value;
        assert e in vs && e.id in s.byId && SaturatingNext(e.version) <= NextVersion(s, subject);
        if key in s.byCanonical {
          FoundIdIn(vs, s.byCanonical[key], true);
          assert e.id != reg.id;
        }
      }
  }

  lemma SchemaAtAfter(f: Formats, s: State, v: SchemaValue, key: Pair)
    requires WF(f, s) && SchemaAt(s, key).Some?
    requires v.subject == key.0 && v.version == key.1 ==> Lookup(s, key.0, key.1).value.id == v.id
    requires Lookup(s, key.0, key.1).value.id == v.id ==> s.byId[v.id] == v.schema
    ensures SchemaAt(ApplySchema(f, s, v), key) == SchemaAt(s, key)
  {
    ApplySchemaEntries(f, s, v);
  }

  /** No schema that the walk visits is replaced by the record. */
  ghost predicate Undisturbed(s: State, subject: string, schema: Schema, reg: Registered) {
    ResolveInto(CatalogueOf(s), schema.references, START).Ok? &&
    forall key <- ResolveInto(CatalogueOf(s), schema.references, START).value.visited ::
      SchemaAt(s, key).Some? && Untouched(s, subject, schema, reg, key)
  }

  ghost predicate Untouched(s: State, subject: string, schema: Schema, reg: Registered, key: Pair)
    requires SchemaAt(s, key).Some?
  {
    var id := Lookup(s, key.0, key.1).value.id;
    (id == reg.id ==> s.byId[reg.id] == schema) && (key == (subject, reg.version) ==> id == reg.id)
  }

  lemma ClosureAfter(s: State, t: State, subject: string, schema: Schema, reg: Registered)
    requires Undisturbed(s, subject, schema, reg)
    requires forall key :: SchemaAt(s, key).Some? && Untouched(s, subject, schema, reg, key) ==>
          SchemaAt(t, key) == SchemaAt(s, key)
    ensures ResolveClosure(t, schema.references) == ResolveClosure(s, schema.references)
  {
    WalkStable(CatalogueOf(s), CatalogueOf(t), schema.references, START);
  }

  /** The replayed record is indexed under the key the decision was taken for. */
  lemma ReplayIsIndexed(f: Formats, s: State, subject: string, schema: Schema, reg: Registered)
    requires WF(f, s) && Register(f, s, subject, schema).Ok? && Register(f, s, subject, schema).value.1 == reg
    requires Undisturbed(s, subject, schema, reg)
    ensures var t := ApplySchema(f, s, RecordOf(subject, schema, reg));
            KeyOf(f, schema) in t.byCanonical && t.byCanonical[KeyOf(f, schema)] == reg.id
  {
    hide ApplySchema, KeyOf;
    var s2 := Rebound(s, reg.id, schema);
    forall key | SchemaAt(s, key).Some? && Untouched(s, subject, schema, reg, key)
      ensures SchemaAt(s2, key) == SchemaAt(s, key)
    {
      assert Of(s2, key.0) == Of(s, key.0);
    }
    ClosureAfter(s, s2, subject, schema, reg);
    ReplayedIndex(f, s, subject, schema, reg);
  }

  // The decided version is the lowest under the subject with the decided id, after the replay.
  lemma ReplayIsLowest(f: Formats, s: State, subject: string, schema: Schema, reg: Registered)
    requires WF(f, s) && Register(f, s, subject, schema).Ok? && Register(f, s, subject, schema).value.1 == reg
    ensures FindId(Of(ApplySchema(f, s, RecordOf(subject, schema, reg)), subject), reg.id, true)
        == Some(Entry(reg.version, reg.id, false))
  {
    var t, e := ApplySchema(f, s, RecordOf(subject, schema, reg)), Entry(reg.version, reg.id, false);
    var vs, key := Of(s, subject), KeyOf(f, schema);
    ApplySchemaEntries(f, s, RecordOf(subject, schema, reg));
    UpsertEffect(vs, e);
    forall x | x in vs && x.id == reg.id
      ensures reg.version <= x.version
    {
      if key in s.byCanonical {
        FoundIdIn(vs, s.byCanonical[key], true);
        if FindId(vs, s.byCanonical[key], true).Some? { LowestFound(vs, reg.id); }
      }
    }
    FoundIdIsLowest(Of(t, subject), reg.id, e);
  }

  /** Registering again after the replay returns the same id and version and changes nothing. */
  lemma ReplayThenRegister(f: Formats, s: State, subject: string, schema: Schema, reg: Registered)
    requires WF(f, s) && Register(f, s, subject, schema).Ok? && Register(f, s, subject, schema).value.1 == reg
    requires Undisturbed(s, subject, schema, reg)
    ensures var t := ApplySchema(f, s, RecordOf(subject, schema, reg)); Register(f, t, subject, schema) == Ok((t, reg))
  {
    var t := ApplySchema(f, s, RecordOf(subject, schema, reg));
    ReplayIsIndexed(f, s, subject, schema, reg);
    ReplayIsLowest(f, s, subject, schema, reg);
    forall key | SchemaAt(s, key).Some? && Untouched(s, subject, schema, reg, key)
      ensures SchemaAt(t, key) == SchemaAt(s, key)
    {
      SchemaAtAfter(f, s, RecordOf(subject, schema, reg), key);
    }
    ClosureAfter(s, t, subject, schema, reg);
  }

  // The store with the decided schema under the decided id.
  function Rebound(s: State, id: int, schema: Schema): State { s.(byId := s.byId[id := schema]) }

  lemma IndexableAt(f: Formats, s: State, t: State, schema: Schema)
    requires s.subjects == t.subjects && s.byId == t.byId
    ensures Indexable(f, s, schema) == Indexable(f, t, schema)
  {
    forall key ensures SchemaAt(s, key) == SchemaAt(t, key) {
      assert Of(s, key.0) == Of(t, key.0);
    }
    assert CatalogueOf(s) == CatalogueOf(t);
  }

  // A decided identity is bound to no other id.
  lemma DecidedKey(f: Formats, s: State, subject: string, schema: Schema, reg: Registered)
    requires WF(f, s) && Register(f, s, subject, schema).Ok? && Register(f, s, subject, schema).value.1 == reg
    ensures KeyOf(f, schema) in s.byCanonical ==> s.byCanonical[KeyOf(f, schema)] == reg.id
    ensures KeyOf(f, schema) !in Unindex(s, reg.id).byCanonical
  {
    var key := KeyOf(f, schema);
    FoundIdIn(Of(s, subject), if key in s.byCanonical then s.byCanonical[key] else 0, true);
  }

  lemma ReplayedIndex(f: Formats, s: State, subject: string, schema: Schema, reg: Registered)
    requires WF(f, s) && Register(f, s, subject, schema).Ok? && Register(f, s, subject, schema).value.1 == reg
    ensures var t, key := ApplySchema(f, s, RecordOf(subject, schema, reg)), KeyOf(f, schema);
            if Indexable(f, Rebound(s, reg.id, schema), schema)
            then key in t.byCanonical && t.byCanonical[key] == reg.id
            else key !in t.byCanonical
  {
    var s1 := ObserveVersion(s.(maxId := Max(s.maxId, reg.id)), subject, reg.version);
    var s2 := Unindex(s1, reg.id).(byId := s1.byId[reg.id := schema]);
    DecidedKey(f, s, subject, schema, reg);
    IndexableAt(f, s2, Rebound(s, reg.id, schema), schema);
    assert KeyOf(f, schema) !in Unindex(s1, reg.id).byCanonical;
  }

  lemma UnknownKeyAdds(f: Formats, t: State, subject: string, schema: Schema)
    requires KeyOf(f, schema) !in t.byCanonical && Register(f, t, subject, schema).Ok?
    ensures Register(f, t, subject, schema).value.0 != t
  {
    hide KeyOf, ResolveClosure;
    assert |Of(Register(f, t, subject, schema).value.0, subject)| == |Of(t, subject)| + 1;
  }

  lemma KnownKeyFinds(f: Formats, t: State, subject: string, schema: Schema, reg: Registered)
    requires KeyOf(f, schema) in t.byCanonical && t.byCanonical[KeyOf(f, schema)] == reg.id
    requires FindId(Of(t, subject), reg.id, true) == Some(Entry(reg.version, reg.id, false))
    ensures Register(f, t, subject, schema) == Ok((t, reg)) <==> Indexable(f, t, schema)
  {
    hide KeyOf, ResolveClosure, Allocated, Enlisted;
  }

  /** Registering again after the replay returns the same pair and changes nothing exactly when the
      schema still parses with its references once its id carries it, before and after its own entry. */
  lemma RegisterAgainIff(f: Formats, s: State, subject: string, schema: Schema, reg: Registered)
    requires WF(f, s) && Register(f, s, subject, schema).Ok? && Register(f, s, subject, schema).value.1 == reg
    ensures var t := ApplySchema(f, s, RecordOf(subject, schema, reg));
            Register(f, t, subject, schema) == Ok((t, reg)) <==>
                Indexable(f, Rebound(s, reg.id, schema), schema) && Indexable(f, t, schema)
  {
    hide ApplySchema, Register, Indexable, KeyOf;
    var t := ApplySchema(f, s, RecordOf(subject, schema, reg));
    ReplayedIndex(f, s, subject, schema, reg);
    ReplayIsLowest(f, s, subject, schema, reg);
    if KeyOf(f, schema) in t.byCanonical {
      KnownKeyFinds(f, t, subject, schema, reg);
    } else if Register(f, t, subject, schema).Ok? {
      UnknownKeyAdds(f, t, subject, schema);
    }
  }

  /** A decision that hands out a new id never disturbs its own closure. */
  lemma FreshIsUndisturbed(f: Formats, s: State, subject: string, schema: Schema, reg: Registered)
    requires WF(f, s) && Register(f, s, subject, schema).Ok? && Register(f, s, subject, schema).value.1 == reg
    requires KeyOf(f, schema) !in s.byCanonical && NextVersion(s, subject) < MAX_VERSION
    ensures Undisturbed(s, subject, schema, reg)
  {
    var c := CatalogueOf(s);
    WalkCovers(c, schema.references, START);
    DecisionRebindsOnlyAtTheEnd(f, s, subject, schema, reg);
    forall key <- ResolveInto(c, schema.references, START).value.visited
      ensures SchemaAt(s, key).Some? && Untouched(s, subject, schema, reg, key)
    {
      assert Closed(c, ResolveInto(c, schema.references, START).value.visited, key);
      assert Lookup(s, key.0, key.1).value.id in s.byId;
    }
  }
}

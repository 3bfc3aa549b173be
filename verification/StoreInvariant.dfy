/** The store invariant, that every record keeps it, and that replaying a decision agrees with it. */
module StoreInvariant {
  import opened Wrappers
  import opened Identity
  import opened Store

  ghost predicate ListOk(s: State, vs: seq<Entry>, next: int) {
    && vs != [] && Ascending(vs)
    && forall e <- vs :: e.id in s.byId && SaturatingNext(e.version) <= next
  }

  ghost predicate EntriesOk(s: State) {
    forall subject <- s.subjects :: subject in s.nextVersions && ListOk(s, s.subjects[subject], s.nextVersions[subject])
  }

  ghost predicate Inverse(keys: map<int, string>, ids: map<string, int>) {
    && (forall id <- keys :: keys[id] in ids && ids[keys[id]] == id)
    && (forall key <- ids :: ids[key] in keys && keys[ids[key]] == key)
  }

  ghost predicate IndexOk(f: Formats, s: State) {
    && Inverse(s.canonicalById, s.byCanonical)
    && forall id <- s.canonicalById :: id in s.byId && s.canonicalById[id] == KeyOf(f, s.byId[id])
  }

  /** The two identity indexes are inverse and agree with the stored schemas; entries ascend, point
      at stored schemas and stay below the next version; no id exceeds the maximum. */
  ghost predicate WF(f: Formats, s: State) {
    EntriesOk(s) && IndexOk(f, s) && forall id <- s.byId :: id <= s.maxId
  }

  // ------------------------------------------------------------------
  // The versions of one subject
  // ------------------------------------------------------------------

  lemma FoundIff(vs: seq<Entry>, e: Entry)
    requires Ascending(vs)
    ensures Find(vs, e.version) == Some(e) <==> e in vs
  {
    FoundIn(vs, e.version);
    if e in vs {
      var i :| 0 <= i < |vs| && vs[i] == e;
      assert Find(vs, e.version).Some?;
    }
  }

  lemma {:induction false} InsertEffect(vs: seq<Entry>, e: Entry)
    requires Ascending(vs) && forall x <- vs :: x.version != e.version
    ensures Ascending(Insert(vs, e)) && forall x :: x in Insert(vs, e) <==> x in vs || x == e
  {
    if !(vs == [] || vs[|vs| - 1].version <= e.version) {
      var front, last := vs[..|vs| - 1], vs[|vs| - 1];
      InsertEffect(front, e);
      assert vs == front + [last];
      forall x <- Insert(front, e) ensures x.version < last.version {}
    }
  }

  lemma {:induction false} ReplaceEffect(vs: seq<Entry>, e: Entry)
    requires Ascending(vs) && exists x <- vs :: x.version == e.version
    ensures Ascending(Replace(vs, e))
    ensures forall x :: x in Replace(vs, e) <==> x == e || (x in vs && x.version != e.version)
  {
    var rest := vs[1..];
    assert vs == [vs[0]] + rest;
    if vs[0].version == e.version {
      assert forall x <- rest :: x.version != e.version;
      assert Replace(vs, e) == [e] + rest;
    } else {
      ReplaceEffect(rest, e);
      assert Replace(vs, e) == [vs[0]] + Replace(rest, e);
      assert forall x <- Replace(rest, e) :: vs[0].version < x.version;
    }
  }

  lemma UpsertEffect(vs: seq<Entry>, e: Entry)
    requires Ascending(vs)
    ensures Ascending(Upsert(vs, e))
    ensures forall x :: x in Upsert(vs, e) <==> x == e || (x in vs && x.version != e.version)
    ensures forall v :: Find(Upsert(vs, e), v) == if v == e.version then Some(e) else Find(vs, v)
  {
    FoundIn(vs, e.version);
    if Find(vs, e.version).Some? { ReplaceEffect(vs, e); } else { InsertEffect(vs, e); }
    forall v
      ensures Find(Upsert(vs, e), v) == if v == e.version then Some(e) else Find(vs, v)
    {
      FoundIn(Upsert(vs, e), v);
      FoundIn(vs, v);
      if Find(vs, v).Some? { FoundIff(Upsert(vs, e), Find(vs, v).value); }
      if Find(Upsert(vs, e), v).Some? { FoundIff(vs, Find(Upsert(vs, e), v).value); }
      FoundIff(Upsert(vs, e), e);
    }
  }

  lemma {:induction false} MarkDeletedEffect(vs: seq<Entry>, v: int)
    ensures Find(MarkDeleted(vs), v) == match Find(vs, v) case Some(e) => Some(e.(deleted := true)) case None => None
  {
    if vs != [] {
      MarkDeletedEffect(vs[1..], v);
      assert MarkDeleted(vs)[1..] == MarkDeleted(vs[1..]);
    }
  }

  lemma {:induction false} WithoutMembers(vs: seq<Entry>, version: int)
    ensures forall x :: x in Without(vs, version) <==> x in vs && x.version != version
    ensures |Without(vs, version)| <= |vs|
    ensures |Without(vs, version)| == |vs| ==> Without(vs, version) == vs
  {
    if vs != [] {
      assert vs == [vs[0]] + vs[1..];
      WithoutMembers(vs[1..], version);
    }
  }

  lemma {:induction false} WithoutAscends(vs: seq<Entry>, version: int)
    requires Ascending(vs)
    ensures Ascending(Without(vs, version))
  {
    if vs != [] {
      WithoutMembers(vs[1..], version);
      WithoutAscends(vs[1..], version);
      assert forall x <- Without(vs[1..], version) :: vs[0].version < x.version;
    }
  }

  lemma WithoutEffect(vs: seq<Entry>, version: int, v: int)
    requires Ascending(vs)
    ensures Find(Without(vs, version), v) == if v == version then None else Find(vs, v)
  {
    WithoutMembers(vs, version);
    WithoutAscends(vs, version);
    FoundIn(Without(vs, version), v);
    FoundIn(vs, v);
    if Find(vs, v).Some? { FoundIff(Without(vs, version), Find(vs, v).value); }
    if Find(Without(vs, version), v).Some? { FoundIff(vs, Find(Without(vs, version), v).value); }
  }

  // ------------------------------------------------------------------
  // Every record keeps the invariant
  // ------------------------------------------------------------------

  lemma UnindexEffect(s: State, id: int)
    requires Inverse(s.canonicalById, s.byCanonical)
    ensures var t := Unindex(s, id);
            && Inverse(t.canonicalById, t.byCanonical) && t.canonicalById == s.canonicalById - {id}
            && (forall key <- t.byCanonical :: key in s.byCanonical && t.byCanonical[key] == s.byCanonical[key])
            && t == s.(byCanonical := t.byCanonical, canonicalById := t.canonicalById)
  {
    if id !in s.canonicalById {
      assert s.canonicalById - {id} == s.canonicalById;
    }
  }

  lemma IndexEffect(s: State, id: int, key: string)
    requires Inverse(s.canonicalById, s.byCanonical) && id !in s.canonicalById
    ensures var t := Index(s, id, key);
            && Inverse(t.canonicalById, t.byCanonical) && id in t.canonicalById && t.canonicalById[id] == key
            && (forall k <- t.canonicalById :: k != id ==>
                k in s.canonicalById && t.canonicalById[k] == s.canonicalById[k])
            && t == s.(byCanonical := t.byCanonical, canonicalById := t.canonicalById)
  {
    assert forall k <- s.canonicalById :: s.canonicalById[k] == key ==> k == s.byCanonical[key];
  }

  lemma BindKeepsIndex(f: Formats, s: State, id: int, schema: Schema)
    requires IndexOk(f, s)
    ensures IndexOk(f, BindId(f, s, id, schema))
    ensures var t := BindId(f, s, id, schema);
            && t.byId == s.byId[id := schema] && t == s.(byId := t.byId, byCanonical := t.byCanonical,
                    canonicalById := t.canonicalById)
  {
    UnindexEffect(s, id);
    var s1 := Unindex(s, id);
    var s2 := s1.(byId := s1.byId[id := schema]);
    IndexEffect(s2, id, KeyOf(f, schema));
  }

  lemma PutKeepsEntries(s: State, subject: string, e: Entry)
    requires EntriesOk(s) && e.id in s.byId && subject in s.nextVersions
    requires SaturatingNext(e.version) <= s.nextVersions[subject]
    ensures EntriesOk(PutEntry(s, subject, e))
  {
    UpsertEffect(Of(s, subject), e);
  }

  lemma ApplySchemaKeeps(f: Formats, s: State, v: SchemaValue)
    requires WF(f, s)
    ensures WF(f, ApplySchema(f, s, v))
  {
    var s1 := ObserveVersion(s.(maxId := Max(s.maxId, v.id)), v.subject, v.version);
    assert EntriesOk(s1);
    BindKeepsIndex(f, s1, v.id, v.schema);
    var s2 := BindId(f, s1, v.id, v.schema);
    assert EntriesOk(s2);
    PutKeepsEntries(s2, v.subject, Entry(v.version, v.id, v.deleted));
  }

  // The identity part of the store is untouched.
  lemma SameIndex(f: Formats, s: State, t: State)
    requires WF(f, s) && t.byId == s.byId && t.byCanonical == s.byCanonical && t.canonicalById == s.canonicalById
    requires t.maxId >= s.maxId
    requires EntriesOk(t)
    ensures WF(f, t)
  {}

  // Next versions only grow.
  lemma ObserveKeepsEntries(s: State, subject: string, next: int)
    requires EntriesOk(s)
    ensures EntriesOk(ObserveNext(s, subject, next))
  {
    var t := ObserveNext(s, subject, next);
    forall x <- t.subjects
      ensures x in t.nextVersions && ListOk(t, t.subjects[x], t.nextVersions[x])
    {
      assert ListOk(s, s.subjects[x], s.nextVersions[x]);
    }
  }

  lemma RemovalKeepsEntries(s: State, subject: string, version: int)
    requires EntriesOk(s)
    ensures EntriesOk(PermanentDelete(s, subject, version))
  {
    hide SameSettings, SameIdentities;
    ObserveKeepsEntries(s, subject, SaturatingNext(version));
    var s1, t := ObserveVersion(s, subject, version), PermanentDelete(s, subject, version);
    if subject in s1.subjects {
      WithoutMembers(s1.subjects[subject], version);
      WithoutAscends(s1.subjects[subject], version);
    }
    forall x <- t.subjects
      ensures x in t.nextVersions && ListOk(t, t.subjects[x], t.nextVersions[x])
    {
      assert ListOk(s1, s1.subjects[x], s1.nextVersions[x]);
    }
  }

  lemma PermanentDeleteKeeps(f: Formats, s: State, subject: string, version: int)
    requires WF(f, s)
    ensures WF(f, PermanentDelete(s, subject, version))
  {
    RemovalKeepsEntries(s, subject, version);
    SameIndex(f, s, PermanentDelete(s, subject, version));
  }

  lemma SoftDeleteKeeps(f: Formats, s: State, subject: string)
    requires WF(f, s)
    ensures WF(f, SoftDeleteSubject(s, subject))
  {
    var t := SoftDeleteSubject(s, subject);
    forall e | e in Of(t, subject)
      ensures exists x :: x in Of(s, subject) && e.id == x.id && e.version == x.version
    {
      var i :| 0 <= i < |Of(t, subject)| && Of(t, subject)[i] == e;
      assert Of(s, subject)[i] in Of(s, subject);
    }
    SameIndex(f, s, t);
  }

  lemma OnlySettings(f: Formats, s: State, r: Record)
    requires EntriesOk(s) && (r.ModeRecord? || r.ConfigRecord? || r.Noop?)
    ensures EntriesOk(Apply(f, s, r))
  {
    var t := Apply(f, s, r);
    forall x <- t.subjects
      ensures x in t.nextVersions && ListOk(t, t.subjects[x], t.nextVersions[x])
    {
      assert ListOk(s, s.subjects[x], s.nextVersions[x]);
    }
  }

  lemma SettingKeeps(f: Formats, s: State, r: Record)
    requires WF(f, s) && (r.HighWater? || r.ModeRecord? || r.ConfigRecord? || r.Noop?)
    ensures WF(f, Apply(f, s, r))
  {
    var t := Apply(f, s, r);
    if r.HighWater? {
      ObserveKeepsEntries(s, r.subject, r.next);
    } else {
      OnlySettings(f, s, r);
    }
    SameIndex(f, s, t);
  }

  /** Folding any record keeps the invariant. */
  lemma ApplyKeeps(f: Formats, s: State, r: Record)
    requires WF(f, s)
    ensures WF(f, Apply(f, s, r))
  {
    match r {
      case SchemaRecord(_, v) => ApplySchemaKeeps(f, s, v);
      case Tombstone(k) => PermanentDeleteKeeps(f, s, k.subject, k.version);
      case DeleteSubject(subject, _) => SoftDeleteKeeps(f, s, subject);
      case _ => SettingKeeps(f, s, r);
    }
  }

  lemma AllocatedKeeps(f: Formats, s: State, key: string, schema: Schema)
    requires WF(f, s) && key == KeyOf(f, schema)
    ensures WF(f, Allocated(s, key, schema))
  {
    var t := Allocated(s, key, schema);
    assert Inverse(t.canonicalById, t.byCanonical);
    assert EntriesOk(t);
  }

  lemma PushKeepsEntries(s: State, subject: string, e: Entry)
    requires EntriesOk(s) && e.id in s.byId && subject in s.nextVersions
    requires SaturatingNext(e.version) <= s.nextVersions[subject]
    requires forall x <- Of(s, subject) :: x.version < e.version
    ensures EntriesOk(s.(subjects := s.subjects[subject := Of(s, subject) + [e]]))
  {}

  /** Deciding on a clone keeps the invariant exactly when it reuses a version or the next version is
      above all others, which it is as long as version numbers are not exhausted. */
  lemma RegisterKeeps(f: Formats, s: State, subject: string, schema: Schema)
    requires WF(f, s) && Register(f, s, subject, schema).Ok?
    ensures WF(f, Register(f, s, subject, schema).value.0)
       <==> FindUnder(s, subject, KeyOf(f, schema), true).Some? || forall x <- Of(s, subject) ::
           x.version < NextVersion(s, subject)
    ensures NextVersion(s, subject) < MAX_VERSION ==> WF(f, Register(f, s, subject, schema).value.0)
  {
    var key := KeyOf(f, schema);
    if FindUnder(s, subject, key, true).None? {
      AllocatedKeeps(f, s, key, schema);
      EnlistedKeeps(f, Allocated(s, key, schema), subject, Allocated(s, key, schema).byCanonical[key]);
    }
  }

  lemma EnlistedKeeps(f: Formats, s: State, subject: string, id: int)
    requires WF(f, s) && id in s.byId
    ensures WF(f, Enlisted(s, subject, id)) <==> forall x <- Of(s, subject) :: x.version < NextVersion(s, subject)
    ensures NextVersion(s, subject) < MAX_VERSION ==> forall x <- Of(s, subject) :: x.version < NextVersion(s, subject)
  {
    var version, t := NextVersion(s, subject), Enlisted(s, subject, id);
    var s2 := ObserveVersion(s, subject, version);
    if subject in s.subjects { assert ListOk(s, s.subjects[subject], s.nextVersions[subject]); }
    if forall x <- Of(s, subject) :: x.version < version {
      ObserveKeepsEntries(s, subject, SaturatingNext(version));
      PushKeepsEntries(s2, subject, Entry(version, id, false));
      SameIndex(f, s, t);
    } else {
      var i :| 0 <= i < |Of(s, subject)| && Of(s, subject)[i].version >= version;
      assert t.subjects[subject][i] == Of(s, subject)[i] && t.subjects[subject][|Of(s, subject)|].version == version;
    }
  }
}

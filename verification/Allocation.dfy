/** Which id and which version number a registration is given. */
module Allocation {
  import opened Wrappers
  import opened Identity
  import opened Store
  import opened StoreInvariant
  import opened Replay
  import opened Operations
  import opened RegistryRuns
  import RunTheorems
  import SerialRuns

  // ------------------------------------------------------------------
  // One registration
  // ------------------------------------------------------------------

  /** A version of the subject, soft-deleted or not, whose schema has the key. */
  ghost predicate Carries(f: Formats, s: State, subject: string, key: string, version: int) {
    var e := Lookup(s, subject, version);
    e.Some? && key in s.byCanonical && e.value.id == s.byCanonical[key]
  }

  /** A subject that carries the identity answers with the lowest version that does, and nothing changes. */
  lemma CarriedIsReused(f: Formats, s: State, subject: string, schema: Schema, version: int)
    requires WF(f, s) && Register(f, s, subject, schema).Ok? && Carries(f, s, subject, KeyOf(f, schema), version)
    ensures var (t, reg) := Register(f, s, subject, schema).value;
            && t == s && reg.id == s.byCanonical[KeyOf(f, schema)] && reg.version <= version
            && Carries(f, s, subject, KeyOf(f, schema), reg.version)
  {
    var vs, id := Of(s, subject), s.byCanonical[KeyOf(f, schema)];
    FoundIn(vs, version);
    FoundIdIn(vs, id, true);
    LowestFound(vs, id);
    FoundIff(vs, FindId(vs, id, true).value);
  }

  lemma FoundIsCarried(f: Formats, s: State, subject: string, key: string)
    requires WF(f, s) && FindUnder(s, subject, key, true).Some?
    ensures Carries(f, s, subject, key, FindUnder(s, subject, key, true).value.version)
    ensures FindUnder(s, subject, key, true).value.id == s.byCanonical[key]
  {
    var vs := Of(s, subject);
    FoundIdIn(vs, s.byCanonical[key], true);
    FoundIff(vs, FindId(vs, s.byCanonical[key], true).value);
  }

  /** Any other subject gets its next version number; the id is the one that the identity has, or one
      above all ids handed out before. */
  lemma OthersAreAllocated(f: Formats, s: State, subject: string, schema: Schema)
    requires WF(f, s) && Register(f, s, subject, schema).Ok?
    requires forall version :: !Carries(f, s, subject, KeyOf(f, schema), version)
    ensures var (t, reg) := Register(f, s, subject, schema).value;
            var key := KeyOf(f, schema);
            && reg.version == (if subject in s.nextVersions then s.nextVersions[subject] else 1)
            && t.nextVersions == s.nextVersions[subject := Max(reg.version, SaturatingNext(reg.version))]
            && if key in s.byCanonical then reg.id == s.byCanonical[key] && t.maxId == s.maxId && t.byId == s.byId
               else reg.id == s.maxId + 1 == t.maxId && reg.id !in s.byId && t.byId == s.byId[reg.id := schema]
  {
    hide ResolveClosure, KeyOf;
    var key := KeyOf(f, schema);
    if FindUnder(s, subject, key, true).Some? { FoundIsCarried(f, s, subject, key); }
  }

  /** An identity has an id only when a stored schema has the identity: any other is new. */
  lemma IdentityIsStored(f: Formats, s: State, key: string)
    requires WF(f, s) && key in s.byCanonical
    ensures s.byCanonical[key] in s.byId && KeyOf(f, s.byId[s.byCanonical[key]]) == key
  {
    hide KeyOf;
    var id := s.byCanonical[key];
    assert id in s.canonicalById && s.canonicalById[id] == key;
  }

  // ------------------------------------------------------------------
  // Next versions of a replayed log
  // ------------------------------------------------------------------

  /** The next version that a record makes its subject expect. */
  function Expects(r: Record, subject: string): Option<int> {
    match r
    case SchemaRecord(_, v) => if v.subject == subject then Some(SaturatingNext(v.version)) else None
    case Tombstone(k) => if k.subject == subject then Some(SaturatingNext(k.version)) else None
    case HighWater(x, next) => if x == subject then Some(next) else None
    case _ => None
  }

  ghost predicate IsGreatest(records: seq<Record>, subject: string, next: int) {
    && (exists r <- records :: Expects(r, subject) == Some(next))
    && forall r <- records :: Expects(r, subject).Some? ==> Expects(r, subject).value <= next
  }

  lemma NextStep(f: Formats, s: State, r: Record, subject: string)
    requires WF(f, s)
    ensures var t, e := Apply(f, s, r), Expects(r, subject);
            if e.None? then subject in t.nextVersions <==> subject in s.nextVersions
            else subject in t.nextVersions
    ensures var t, e := Apply(f, s, r), Expects(r, subject);
            && (e.None? && subject in s.nextVersions ==> t.nextVersions[subject] == s.nextVersions[subject])
            && (e.Some? && subject in s.nextVersions ==>
                  t.nextVersions[subject] == Max(s.nextVersions[subject], e.value))
            && (e.Some? && subject !in s.nextVersions ==> t.nextVersions[subject] == e.value)
  {
    match r {
      case SchemaRecord(_, v) =>
        hide WF, ApplySchema;
        ApplySchemaEntries(f, s, v);
      case _ => hide WF;
    }
  }

  /** The next version of a subject is the greatest that a record of the log makes it expect; the subject
      has none exactly when no record does. */
  lemma {:induction false} NextIsGreatest(f: Formats, level: Level, mode: Mode, records: seq<Record>, subject: string)
    ensures var next := Replayed(f, level, mode, records).nextVersions;
            if subject in next then IsGreatest(records, subject, next[subject])
            else forall r <- records :: Expects(r, subject).None?
  {
    if records != [] {
      hide Apply, WF, Expects;
      var front, last := records[..|records| - 1], records[|records| - 1];
      NextIsGreatest(f, level, mode, front, subject);
      ReplayedKeeps(f, level, mode, front);
      NextStep(f, Replayed(f, level, mode, front), last, subject);
      assert records == front + [last];
    }
  }

  // ------------------------------------------------------------------
  // Ids of a serial log
  // ------------------------------------------------------------------

  ghost predicate Uses(records: seq<Record>, id: int) {
    exists r <- records :: r.SchemaRecord? && r.value.id == id
  }

  /** The ids in use are 1, 2, and so on up to the greatest. */
  ghost predicate Dense(records: seq<Record>, s: State) {
    && 0 <= s.maxId && (forall id :: Uses(records, id) <==> 1 <= id <= s.maxId)
    && forall id <- s.byId :: Uses(records, id)
  }

  // No registration is taken in IMPORT mode, where clients choose ids.
  ghost function NoImport(): Condition {
    (q: Request, s: State) => q.RegisterSchema? ==> !EffectiveMode(s, q.subject).Import?
  }

  lemma RegisteredId(f: Formats, s: State, subject: string, schema: Schema)
    requires WF(f, s)
    ensures Register(f, s, subject, schema).Ok? ==>
          var reg := Register(f, s, subject, schema).value.1; reg.id in s.byId || reg.id == s.maxId + 1
  {
    hide KeyOf, ResolveClosure;
    var key := KeyOf(f, schema);
    if key in s.byCanonical { IdentityIsStored(f, s, key); }
    if FindUnder(s, subject, key, true).Some? { FoundIsCarried(f, s, subject, key); }
  }

  lemma PlannedId(f: Formats, q: Request, s: State, v: SchemaValue)
    requires WF(f, s) && NoImport()(q, s)
    requires Plan(f, q, [s]) != [] && Plan(f, q, [s])[0].SchemaRecord? && Plan(f, q, [s])[0].value == v
    ensures v.id in s.byId || v.id == s.maxId + 1
  {
    if q.RegisterSchema? {
      RegisteredId(f, s, q.subject, v.schema);
    }
  }

  lemma {:induction false} OthersKeepIds(f: Formats, level: Level, mode: Mode, prior: seq<Record>, more: seq<Record>)
    requires forall r <- more :: !r.SchemaRecord?
    ensures SameIdentities(Replayed(f, level, mode, prior), Replayed(f, level, mode, prior + more))
    ensures forall id :: Uses(prior + more, id) <==> Uses(prior, id)
  {
    if more == [] {
      assert prior + more == prior;
    } else {
      var rest, last := more[..|more| - 1], more[|more| - 1];
      OthersKeepIds(f, level, mode, prior, rest);
      ReplayedOne(f, level, mode, prior + rest, last);
      RunTheorems.ApplyOther(f, Replayed(f, level, mode, prior + rest), last);
      assert prior + more == prior + rest + [last];
    }
  }

  lemma DenseWrite(f: Formats, level: Level, mode: Mode, prior: seq<Record>, q: Request, k: nat)
    requires var s := Replayed(f, level, mode, prior); NoImport()(q, s) && k <= |Plan(f, q, [s])| && Dense(prior, s)
    ensures var records := prior + Plan(f, q, [Replayed(f, level, mode, prior)])[..k];
            Dense(records, Replayed(f, level, mode, records))
  {
    hide Plan, Apply, WF, NoImport;
    var s := Replayed(f, level, mode, prior);
    var plan := Plan(f, q, [s]);
    ReplayedKeeps(f, level, mode, prior);
    RunTheorems.PlanShape(f, q, s);
    if k == 0 {
      assert prior + plan[..0] == prior;
    } else if plan[0].SchemaRecord? {
      assert plan[..k] == [plan[0]];
      PlannedId(f, q, s, plan[0].value);
      ReplayedOne(f, level, mode, prior, plan[0]);
      OneMoreId(f, s, prior, plan[0]);
    } else {
      OthersKeepIds(f, level, mode, prior, plan[..k]);
    }
  }

  lemma OneMoreId(f: Formats, s: State, prior: seq<Record>, r: Record)
    requires WF(f, s) && Dense(prior, s) && r.SchemaRecord? && (r.value.id in s.byId || r.value.id == s.maxId + 1)
    ensures Dense(prior + [r], Apply(f, s, r))
  {
    ApplySchemaEntries(f, s, r.value);
    forall id ensures Uses(prior + [r], id) <==> Uses(prior, id) || id == r.value.id {
      if Uses(prior, id) {
        var x :| x in prior && x.SchemaRecord? && x.value.id == id;
        assert x in prior + [r];
      }
      assert r in prior + [r];
    }
  }

  ghost function DenseInv(f: Formats, level: Level, mode: Mode): seq<Record> -> bool {
    (rs: seq<Record>) => Dense(rs, Replayed(f, level, mode, rs))
  }

  /** Without IMPORT, the ids of the SCHEMA records of every serial log are 1, 2, and so on without a gap. */
  lemma IdsAreDense(f: Formats, level: Level, mode: Mode, records: seq<Record>)
    requires SerialRuns.Serial(Registry(f, level, mode), NoImport(), records)
    ensures forall id :: Uses(records, id) <==> 1 <= id <= Replayed(f, level, mode, records).maxId
  {
    var inv := DenseInv(f, level, mode);
    forall prior, q, k: nat ensures WriteKeeps(f, level, mode, NoImport(), inv, prior, q, k) {
      if inv(prior) && NoImport()(q, Replayed(f, level, mode, prior))
         && k <= |Plan(f, q, [Replayed(f, level, mode, prior)])| {
        DenseWrite(f, level, mode, prior, q, k);
      }
    }
    StartsDense(f, level, mode);
    SerialInduction(f, level, mode, NoImport(), inv, records);
  }

  lemma StartsDense(f: Formats, level: Level, mode: Mode)
    ensures Dense([], Replayed(f, level, mode, []))
  {}
}

/** The registry as a replicated machine, and what holds of its committed log in every run. */
module RegistryRuns {
  import opened Wrappers
  import opened Identity
  import opened Store
  import opened StoreInvariant
  import opened Operations
  import SchemaLog
  import SerialRuns
  import Protocol

  type RegistryMachine = SchemaLog.Machine<State, Record, Request>

  function Raise(s: State, k: int): State { s.(maxId := Max(s.maxId, k)) }

  function Registry(f: Formats, level: Level, mode: Mode): RegistryMachine {
    SchemaLog.Machine(
      WithDefaults(level, mode),
      (s: State, r: Record) => Apply(f, s, r),
      (q: Request, snapshots: seq<State>) => Plan(f, q, snapshots),
      (s: State) => s.maxId,
      (s: State, k: int) => Raise(s, k))
  }

  // ------------------------------------------------------------------
  // The id high water does not disturb the fold
  // ------------------------------------------------------------------

  lemma CatalogueOfSame(s: State, t: State)
    requires s.subjects == t.subjects && s.byId == t.byId
    ensures CatalogueOf(s) == CatalogueOf(t)
  {
    forall key ensures SchemaAt(s, key) == SchemaAt(t, key) {
      assert Of(s, key.0) == Of(t, key.0);
    }
  }

  lemma IndexableSame(f: Formats, s: State, t: State, schema: Schema)
    requires s.subjects == t.subjects && s.byId == t.byId
    ensures Indexable(f, s, schema) == Indexable(f, t, schema)
  {
    CatalogueOfSame(s, t);
  }

  lemma IndexRaised(s: State, k: int, id: int, key: string)
    ensures Index(Raise(s, k), id, key) == Raise(Index(s, id, key), k)
  {
    assert Raise(s, k).byCanonical == s.byCanonical && Raise(s, k).canonicalById == s.canonicalById;
  }

  lemma UnindexRaised(s: State, k: int, id: int)
    ensures Unindex(Raise(s, k), id) == Raise(Unindex(s, id), k)
  {
    if id in s.canonicalById {
      assert Raise(s, k).canonicalById - {id} == s.canonicalById - {id};
    }
  }

  lemma BindRaised(f: Formats, s: State, k: int, id: int, schema: Schema)
    ensures BindId(f, Raise(s, k), id, schema) == Raise(BindId(f, s, id, schema), k)
  {
    var s1 := Unindex(s, id);
    var a := s1.(byId := s1.byId[id := schema]);
    UnindexRaised(s, k, id);
    IndexableSame(f, a, Raise(a, k), schema);
    IndexRaised(a, k, id, KeyOf(f, schema));
  }

  lemma SchemaRaised(f: Formats, s: State, k: int, v: SchemaValue)
    ensures ApplySchema(f, Raise(s, k), v) == Raise(ApplySchema(f, s, v), k)
  {
    var s1 := ObserveVersion(s.(maxId := Max(s.maxId, v.id)), v.subject, v.version);
    assert ObserveVersion(Raise(s, k).(maxId := Max(Raise(s, k).maxId, v.id)), v.subject, v.version) == Raise(s1, k);
    BindRaised(f, s1, k, v.id, v.schema);
  }

  lemma DeleteRaised(s: State, k: int, subject: string, version: int)
    ensures PermanentDelete(Raise(s, k), subject, version) == Raise(PermanentDelete(s, subject, version), k)
    ensures SoftDeleteSubject(Raise(s, k), subject) == Raise(SoftDeleteSubject(s, subject), k)
  {
    assert ObserveVersion(Raise(s, k), subject, version) == Raise(ObserveVersion(s, subject, version), k);
  }

  lemma ModeRaised(s: State, k: int, scope: Option<string>, mode: Option<Mode>)
    ensures ApplyMode(Raise(s, k), scope, mode) == Raise(ApplyMode(s, scope, mode), k)
  {
    match scope case None => case Some(subject) =>
  }

  lemma ConfigRaised(s: State, k: int, scope: Option<string>, level: Option<Level>)
    ensures ApplyConfig(Raise(s, k), scope, level) == Raise(ApplyConfig(s, scope, level), k)
  {
    match scope case None => case Some(subject) =>
  }

  lemma NextRaised(s: State, k: int, subject: string, next: int)
    ensures ObserveNext(Raise(s, k), subject, next) == Raise(ObserveNext(s, subject, next), k)
  {}

  lemma ApplyRaised(f: Formats, s: State, k: int, r: Record)
    ensures Apply(f, Raise(s, k), r) == Raise(Apply(f, s, r), k)
  {
    match r {
      case SchemaRecord(_, v) => SchemaRaised(f, s, k, v);
      case Tombstone(key) => DeleteRaised(s, k, key.subject, key.version);
      case DeleteSubject(subject, _) => DeleteRaised(s, k, subject, 0);
      case HighWater(subject, next) => NextRaised(s, k, subject, next);
      case ModeRecord(scope, mode) => ModeRaised(s, k, scope, mode);
      case ConfigRecord(scope, level) => ConfigRaised(s, k, scope, level);
      case Noop =>
    }
  }

  lemma ApplyGrowsMax(f: Formats, s: State, r: Record)
    ensures s.maxId <= Apply(f, s, r).maxId
  {
    match r {
      case SchemaRecord(_, _) =>
      case Tombstone(_) =>
      case DeleteSubject(_, _) =>
      case HighWater(_, _) =>
      case ModeRecord(_, _) =>
      case ConfigRecord(_, _) =>
      case Noop =>
    }
  }

  lemma RaiseLaws(s: State, j: int, k: int)
    ensures k <= s.maxId ==> Raise(s, k) == s
    ensures Raise(Raise(s, j), k) == Raise(s, SchemaLog.Max(j, k)) && Raise(s, k).maxId == SchemaLog.Max(s.maxId, k)
  {}

  lemma RaisesAreLawful(f: Formats, level: Level, mode: Mode)
    ensures var m := Registry(f, level, mode);
            && (forall s, k {:trigger m.raise(s, k)} :: k <= m.highWater(s) ==> m.raise(s, k) == s)
            && (forall s, j, k {:trigger m.raise(m.raise(s, j), k)} ::
                m.raise(m.raise(s, j), k) == m.raise(s, SchemaLog.Max(j, k)))
            && (forall s, k {:trigger m.highWater(m.raise(s, k))} ::
                m.highWater(m.raise(s, k)) == SchemaLog.Max(m.highWater(s), k))
  {
    forall s: State, k: int ensures k <= s.maxId ==> Raise(s, k) == s { RaiseLaws(s, 0, k); }
    forall s: State, k: int ensures Raise(s, k).maxId == SchemaLog.Max(s.maxId, k) { RaiseLaws(s, 0, k); }
    forall s: State, j: int, k: int ensures Raise(Raise(s, j), k) == Raise(s, SchemaLog.Max(j, k)) {
      RaiseLaws(s, j, k);
    }
  }

  lemma AppliesAreLawful(f: Formats, level: Level, mode: Mode)
    ensures var m := Registry(f, level, mode);
            && (forall s, k, r {:trigger m.apply(m.raise(s, k), r)} ::
                m.apply(m.raise(s, k), r) == m.raise(m.apply(s, r), k))
            && (forall s, r {:trigger m.apply(s, r)} :: m.highWater(s) <= m.highWater(m.apply(s, r)))
  {
    forall s, k, r ensures Apply(f, Raise(s, k), r) == Raise(Apply(f, s, r), k) { ApplyRaised(f, s, k, r); }
    forall s: State, r ensures s.maxId <= Apply(f, s, r).maxId { ApplyGrowsMax(f, s, r); }
  }

  /** A rebuilt snapshot that inherits the id high water folds to the same store. */
  lemma RegistryIsLawful(f: Formats, level: Level, mode: Mode)
    ensures SchemaLog.Lawful(Registry(f, level, mode))
  {
    RaisesAreLawful(f, level, mode);
    AppliesAreLawful(f, level, mode);
  }

  function Replayed(f: Formats, level: Level, mode: Mode, records: seq<Record>): State {
    SchemaLog.Fold(Registry(f, level, mode), WithDefaults(level, mode), records)
  }

  // ------------------------------------------------------------------
  // Induction over a serial log
  // ------------------------------------------------------------------

  // What a write may assume about the request and the store it is decided from.
  type Condition = (Request, State) -> bool

  const ANY: Condition := (q: Request, s: State) => true

  ghost predicate WriteKeeps(f: Formats, level: Level, mode: Mode, ok: Condition, inv: seq<Record> -> bool,
          prior: seq<Record>, q: Request, k: nat) {
    var s := Replayed(f, level, mode, prior);
    inv(prior) && ok(q, s) && k <= |Plan(f, q, [s])| ==> inv(prior + Plan(f, q, [s])[..k])
  }

  lemma WriteKeepsAt(f: Formats, level: Level, mode: Mode, ok: Condition, inv: seq<Record> -> bool,
          prior: seq<Record>, q: Request, snapshots: seq<State>, k: nat)
    requires WriteKeeps(f, level, mode, ok, inv, prior, q, k)
    ensures SerialRuns.WriteKeeps(Registry(f, level, mode), ok, inv, prior, q, snapshots, k)
  {
    var s := Replayed(f, level, mode, prior);
    if snapshots == [] {
      assert prior + [] == prior;
    } else if forall x <- snapshots :: x == s {
      PlanAt(f, q, snapshots, s);
    }
  }

  lemma SerialInduction(f: Formats, level: Level, mode: Mode, ok: Condition, inv: seq<Record> -> bool,
          records: seq<Record>)
    requires SerialRuns.Serial(Registry(f, level, mode), ok, records) && inv([])
    requires forall prior, q, k :: WriteKeeps(f, level, mode, ok, inv, prior, q, k)
    ensures inv(records)
  {
    var m := Registry(f, level, mode);
    forall prior, q, snapshots, k ensures SerialRuns.WriteKeeps(m, ok, inv, prior, q, snapshots, k) {
      WriteKeepsAt(f, level, mode, ok, inv, prior, q, snapshots, k);
    }
    SerialRuns.SerialInduction(m, ok, inv, records);
  }

  lemma {:induction false} ReplayedKeeps(f: Formats, level: Level, mode: Mode, records: seq<Record>)
    ensures WF(f, Replayed(f, level, mode, records))
  {
    if records != [] {
      ReplayedKeeps(f, level, mode, records[..|records| - 1]);
      ApplyKeeps(f, Replayed(f, level, mode, records[..|records| - 1]), records[|records| - 1]);
    }
  }

  lemma ReplayedOne(f: Formats, level: Level, mode: Mode, records: seq<Record>, r: Record)
    ensures Replayed(f, level, mode, records + [r]) == Apply(f, Replayed(f, level, mode, records), r)
  {
    assert (records + [r])[..|records|] == records;
  }
}

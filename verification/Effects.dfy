/** What folding an accepted request does to the store, and that only soft-deleted versions are destroyed. */
module Effects {
  import opened Wrappers
  import opened Identity
  import opened Store
  import opened StoreInvariant
  import opened Operations
  import opened RegistryRuns
  import opened Acceptance
  import Replay
  import References
  import SerialRuns

  // ------------------------------------------------------------------
  // What is left
  // ------------------------------------------------------------------

  function Deleted(e: Option<Entry>): Option<Entry> {
    match e case Some(x) => Some(x.(deleted := true)) case None => None
  }

  /** What a request other than a registration leaves of one version. */
  function Left(q: Request, subject: string, version: int, e: Option<Entry>): Option<Entry> {
    match q
    case SoftDeleteVersion(x, v) => if subject == x && version == v then Deleted(e) else e
    case SoftDeleteAll(x) => if subject == x then Deleted(e) else e
    case PermanentDeleteVersion(x, v) => if subject == x && version == v then None else e
    case PermanentDeleteAll(x) => if subject == x then None else e
    case _ => e
  }

  function Levels(q: Request, levels: map<string, Level>): map<string, Level> {
    match q
    case SetLevel(Some(x), level) => levels[x := level]
    case DeleteLevel(x) => levels - {x}
    case PermanentDeleteAll(x) => levels - {x}
    case _ => levels
  }

  function Modes(q: Request, modes: map<string, Mode>): map<string, Mode> {
    match q
    case SetMode(Some(x), mode) => modes[x := mode]
    case ClearMode(x) => modes - {x}
    case PermanentDeleteAll(x) => modes - {x}
    case _ => modes
  }

  ghost predicate SameSchemas(s: State, t: State) {
    s.byId == t.byId && s.maxId == t.maxId && forall x :: NextVersion(t, x) == NextVersion(s, x)
  }

  ghost predicate SettingsAfter(q: Request, s: State, t: State) {
    && t.globalLevel == (match q case SetLevel(None, level) => Some(level) case _ => s.globalLevel)
    && t.globalMode == (match q case SetMode(None, mode) => Some(mode) case _ => s.globalMode)
    && t.subjectLevel == Levels(q, s.subjectLevel) && t.subjectMode == Modes(q, s.subjectMode)
    && t.defaultLevel == s.defaultLevel && t.defaultMode == s.defaultMode
  }

  /** Every version is left as the request says; schemas, ids and next versions stay; of levels and modes
      only the named scope changes. */
  ghost predicate Done(q: Request, s: State, t: State) {
    && (forall subject, version ::
          Lookup(t, subject, version) == Left(q, subject, version, Lookup(s, subject, version)))
    && SameSchemas(s, t) && SettingsAfter(q, s, t)
  }

  // ------------------------------------------------------------------
  // Single records
  // ------------------------------------------------------------------

  lemma ObservedStays(f: Formats, s: State, subject: string, version: int)
    requires WF(f, s) && Lookup(s, subject, version).Some?
    ensures SaturatingNext(version) <= NextVersion(s, subject) && subject in s.nextVersions
  {
    FoundIn(Of(s, subject), version);
  }

  lemma SoftDeleteDone(f: Formats, s: State, q: Request)
    requires WF(f, s) && q.SoftDeleteVersion? && Lookup(s, q.subject, q.version).Some?
    requires Lookup(s, q.subject, q.version).value.id in s.byId
    ensures var id := Lookup(s, q.subject, q.version).value.id;
            Done(q, s, Apply(f, s, SchemaRecordOf(q.subject, q.version, id, s.byId[id], true)))
  {
    var id := Lookup(s, q.subject, q.version).value.id;
    var v := SchemaValue(q.subject, q.version, id, s.byId[id], true);
    Replay.ApplySchemaEntries(f, s, v);
    ObservedStays(f, s, q.subject, q.version);
    FoundIn(Of(s, q.subject), q.version);
  }

  lemma SoftDeleteAllDone(f: Formats, s: State, q: Request, version: int)
    requires q.SoftDeleteAll?
    ensures Done(q, s, Apply(f, s, DeleteSubject(q.subject, version)))
  {
    var t := Apply(f, s, DeleteSubject(q.subject, version));
    References.SoftDeleteSubjectEntries(s, q.subject);
    forall subject, v ensures Lookup(t, subject, v) == Left(q, subject, v, Lookup(s, subject, v)) {
      var key: Pair := (subject, v);
      assert Lookup(t, key.0, key.1) == match Lookup(s, key.0, key.1)
        case Some(e) => Some(if key.0 == q.subject then e.(deleted := true) else e)
        case None => None;
    }
  }

  // A high water at the subject's next version adds nothing.
  lemma HighWaterStays(f: Formats, s: State, subject: string)
    requires WF(f, s) && Of(s, subject) != []
    ensures Apply(f, s, HighWater(subject, NextVersion(s, subject))) == s
  {
    assert subject in s.nextVersions;
  }

  lemma TombstoneLeaves(f: Formats, s: State, subject: string, version: int)
    requires WF(f, s)
    ensures var t := Apply(f, s, Tombstone(SchemaKey(subject, version)));
            forall x, v :: Lookup(t, x, v) == if x == subject && v == version then None else Lookup(s, x, v)
  {
    hide WF, PermanentDelete, Lookup;
    References.PermanentDeleteEntries(f, s, subject, version);
    var t := PermanentDelete(s, subject, version);
    forall x, v ensures Lookup(t, x, v) == if x == subject && v == version then None else Lookup(s, x, v) {
      var key: Pair := (x, v);
      assert Lookup(t, key.0, key.1) == if key == (subject, version) then None else Lookup(s, key.0, key.1);
    }
  }

  lemma TombstoneKeeps(f: Formats, s: State, subject: string, version: int)
    requires WF(f, s) && Lookup(s, subject, version).Some?
    ensures var t := Apply(f, s, Tombstone(SchemaKey(subject, version))); SameSchemas(s, t) && SameSettings(s, t)
  {
    ObservedStays(f, s, subject, version);
    hide WF, Lookup, Without;
  }

  lemma TombstoneDone(f: Formats, s: State, subject: string, version: int)
    requires WF(f, s) && Lookup(s, subject, version).Some?
    ensures var t := Apply(f, s, Tombstone(SchemaKey(subject, version)));
            && (forall x, v :: Lookup(t, x, v) == if x == subject && v == version then None else Lookup(s, x, v))
            && SameSchemas(s, t) && SameSettings(s, t)
  {
    hide Apply, WF, Lookup;
    TombstoneLeaves(f, s, subject, version);
    TombstoneKeeps(f, s, subject, version);
  }

  predicate IsSetting(q: Request) { q.SetLevel? || q.DeleteLevel? || q.SetMode? || q.ClearMode? }

  /** The record of a request that changes a setting. */
  function SettingRecord(q: Request): Record
    requires IsSetting(q)
  {
    match q
    case SetLevel(scope, level) => ConfigRecord(scope, Some(level))
    case DeleteLevel(x) => ConfigRecord(Some(x), None)
    case SetMode(scope, mode) => ModeRecord(scope, Some(mode))
    case ClearMode(x) => ModeRecord(Some(x), None)
  }

  lemma SettingPlan(f: Formats, s: State, q: Request)
    requires IsSetting(q) && Plan(f, q, [s]) != []
    ensures Plan(f, q, [s]) == [SettingRecord(q)]
  {}

  lemma SettingKeepsVersions(f: Formats, s: State, q: Request)
    requires IsSetting(q)
    ensures var t := Apply(f, s, SettingRecord(q));
            t.subjects == s.subjects && t.nextVersions == s.nextVersions && SameIdentities(s, t)
            && t.defaultLevel == s.defaultLevel && t.defaultMode == s.defaultMode
  {
    hide ApplySchema, PermanentDelete, SoftDeleteSubject, ObserveNext;
  }

  lemma LevelChanges(f: Formats, s: State, scope: Option<string>, level: Option<Level>)
    requires scope.None? ==> level.Some?
    ensures var t := Apply(f, s, ConfigRecord(scope, level));
            && t.globalMode == s.globalMode && t.subjectMode == s.subjectMode
            && t.defaultLevel == s.defaultLevel && t.defaultMode == s.defaultMode
            && t.globalLevel == (if scope.None? then level else s.globalLevel)
            && t.subjectLevel == if scope.None? then s.subjectLevel
                                 else if level.Some? then s.subjectLevel[scope.value := level.value]
                                 else s.subjectLevel - {scope.value}
  {
    hide ApplySchema, PermanentDelete, SoftDeleteSubject, ObserveNext, ApplyMode;
  }

  lemma ModeChanges(f: Formats, s: State, scope: Option<string>, mode: Option<Mode>)
    ensures var t := Apply(f, s, ModeRecord(scope, mode));
            && t.globalLevel == s.globalLevel && t.subjectLevel == s.subjectLevel
            && t.defaultLevel == s.defaultLevel && t.defaultMode == s.defaultMode
            && t.globalMode == (if scope.None? then mode else s.globalMode)
            && t.subjectMode == if scope.None? then s.subjectMode
                                else if mode.Some? then s.subjectMode[scope.value := mode.value]
                                else s.subjectMode - {scope.value}
  {
    hide ApplySchema, PermanentDelete, SoftDeleteSubject, ObserveNext, ApplyConfig;
  }

  lemma LevelSettings(f: Formats, s: State, q: Request)
    requires q.SetLevel? || q.DeleteLevel?
    ensures SettingsAfter(q, s, Apply(f, s, SettingRecord(q)))
  {
    hide Apply;
    match q
    case SetLevel(scope, level) => LevelChanges(f, s, scope, Some(level));
    case DeleteLevel(x) => LevelChanges(f, s, Some(x), None);
  }

  lemma ModeSettings(f: Formats, s: State, q: Request)
    requires q.SetMode? || q.ClearMode?
    ensures SettingsAfter(q, s, Apply(f, s, SettingRecord(q)))
  {
    hide Apply;
    match q
    case SetMode(scope, mode) => ModeChanges(f, s, scope, Some(mode));
    case ClearMode(x) => ModeChanges(f, s, Some(x), None);
  }

  lemma SettingDone(f: Formats, s: State, q: Request)
    requires IsSetting(q)
    ensures Done(q, s, Apply(f, s, SettingRecord(q)))
  {
    hide Apply, SettingRecord, SettingsAfter;
    SettingKeepsVersions(f, s, q);
    if q.SetLevel? || q.DeleteLevel? { LevelSettings(f, s, q); } else { ModeSettings(f, s, q); }
  }

  // ------------------------------------------------------------------
  // Plans
  // ------------------------------------------------------------------

  lemma AppliedOne(f: Formats, s: State, records: seq<Record>, r: Record)
    ensures ApplyAll(f, s, records + [r]) == Apply(f, ApplyAll(f, s, records), r)
  {
    hide Apply;
    assert (records + [r])[..|records|] == records;
  }

  lemma AppliedTwo(f: Formats, s: State, records: seq<Record>, a: Record, b: Record)
    ensures ApplyAll(f, s, records + [a, b]) == Apply(f, Apply(f, ApplyAll(f, s, records), a), b)
  {
    hide Apply;
    AppliedOne(f, s, records, a);
    AppliedOne(f, s, records + [a], b);
    assert records + [a] + [b] == records + [a, b];
  }

  lemma AppliedFirst(f: Formats, s: State, r: Record)
    ensures ApplyAll(f, s, [r]) == Apply(f, s, r)
  {
    hide Apply;
    assert [r][..0] == [];
  }

  ghost predicate Cleared(subject: string, vs: seq<Entry>, j: nat, x: string, v: int)
    requires j <= |vs|
  {
    x == subject && exists i :: 0 <= i < j && vs[i].version == v
  }

  // The high-water record and the first tombstones of a permanent delete.
  function Removing(subject: string, next: int, vs: seq<Entry>, j: nat): seq<Record>
    requires j <= |vs|
  {
    [HighWater(subject, next)] + Tombstones(subject, vs)[..j]
  }

  ghost predicate Gone(s: State, t: State, subject: string, vs: seq<Entry>, j: nat)
    requires j <= |vs|
  {
    && (forall x, v :: Lookup(t, x, v) == if Cleared(subject, vs, j, x, v) then None else Lookup(s, x, v))
    && SameSchemas(s, t) && SameSettings(s, t)
  }

  lemma GoneStep(f: Formats, s: State, t: State, subject: string, vs: seq<Entry>, j: nat)
    requires WF(f, t) && Ascending(vs) && 0 < j <= |vs| && Gone(s, t, subject, vs, j - 1)
    requires forall e <- vs :: Lookup(s, subject, e.version).Some?
    ensures Gone(s, Apply(f, t, Tombstone(SchemaKey(subject, vs[j - 1].version))), subject, vs, j)
  {
    hide Apply, WF, Lookup;
    assert vs[j - 1] in vs && !Cleared(subject, vs, j - 1, subject, vs[j - 1].version);
    TombstoneDone(f, t, subject, vs[j - 1].version);
    OneMoreCleared(subject, vs, j);
    hide Cleared;
  }

  lemma NothingGone(s: State, subject: string, vs: seq<Entry>)
    ensures Gone(s, s, subject, vs, 0)
  {
    hide Lookup;
  }

  lemma {:induction false} RemovingClears(f: Formats, s: State, subject: string, vs: seq<Entry>, j: nat)
    requires WF(f, s) && Ascending(vs) && j <= |vs| && Of(s, subject) != []
    requires forall e <- vs :: Lookup(s, subject, e.version).Some?
    ensures var t := ApplyAll(f, s, Removing(subject, NextVersion(s, subject), vs, j));
            WF(f, t) && Gone(s, t, subject, vs, j)
  {
    hide Apply, WF, Tombstones, Gone, ApplyAll, Lookup;
    var next := NextVersion(s, subject);
    if j == 0 {
      assert Removing(subject, next, vs, 0) == [HighWater(subject, next)];
      AppliedFirst(f, s, HighWater(subject, next));
      HighWaterStays(f, s, subject);
      NothingGone(s, subject, vs);
    } else {
      RemovingClears(f, s, subject, vs, j - 1);
      var t := ApplyAll(f, s, Removing(subject, next, vs, j - 1));
      var r := Tombstone(SchemaKey(subject, vs[j - 1].version));
      RemovingNext(subject, next, vs, j);
      AppliedOne(f, s, Removing(subject, next, vs, j - 1), r);
      ApplyKeeps(f, t, r);
      GoneStep(f, s, t, subject, vs, j);
    }
  }

  lemma RemovingNext(subject: string, next: int, vs: seq<Entry>, j: nat)
    requires 0 < j <= |vs|
    ensures Removing(subject, next, vs, j)
         == Removing(subject, next, vs, j - 1) + [Tombstone(SchemaKey(subject, vs[j - 1].version))]
  {}

  lemma OneMoreCleared(subject: string, vs: seq<Entry>, j: nat)
    requires 0 < j <= |vs|
    ensures forall x, v ::
              Cleared(subject, vs, j, x, v) <==>
                Cleared(subject, vs, j - 1, x, v) || (x == subject && v == vs[j - 1].version)
  {}

  lemma PermanentDeletePlan(f: Formats, s: State, q: Request)
    requires q.PermanentDeleteVersion? && Plan(f, q, [s]) != []
    ensures Lookup(s, q.subject, q.version).Some?
    ensures Plan(f, q, [s])
         == [HighWater(q.subject, NextVersion(s, q.subject)), Tombstone(SchemaKey(q.subject, q.version))]
         == Removing(q.subject, NextVersion(s, q.subject), [Lookup(s, q.subject, q.version).value], 1)
  {
    var e := Lookup(s, q.subject, q.version).value;
    FoundIn(Of(s, q.subject), q.version);
    assert Tombstones(q.subject, [e])[..1] == [Tombstone(SchemaKey(q.subject, q.version))];
  }

  lemma ThenOneGone(s: State, t: State, q: Request, e: Entry)
    requires q.PermanentDeleteVersion? && e.version == q.version && Gone(s, t, q.subject, [e], 1)
    ensures Done(q, s, t)
  {
    hide Lookup, Cleared;
    OneMoreCleared(q.subject, [e], 1);
    NoneCleared(q.subject, [e]);
  }

  lemma NoneCleared(subject: string, vs: seq<Entry>)
    ensures forall x, v :: !Cleared(subject, vs, 0, x, v)
  {}

  lemma PermanentDeleteDone(f: Formats, s: State, q: Request)
    requires WF(f, s) && q.PermanentDeleteVersion? && Plan(f, q, [s]) != []
    ensures Done(q, s, ApplyAll(f, s, Plan(f, q, [s])))
  {
    PermanentDeletePlan(f, s, q);
    FoundIn(Of(s, q.subject), q.version);
    hide Plan, Apply, ApplyAll, WF, Removing, Gone, Done;
    var e := Lookup(s, q.subject, q.version).value;
    RemovingClears(f, s, q.subject, [e], 1);
    ThenOneGone(s, ApplyAll(f, s, Plan(f, q, [s])), q, e);
  }

  lemma PermanentDeleteAllPlan(f: Formats, s: State, q: Request)
    requires q.PermanentDeleteAll? && Plan(f, q, [s]) != []
    ensures Of(s, q.subject) != []
    ensures var vs := Of(s, q.subject);
            Plan(f, q, [s]) == Removing(q.subject, NextVersion(s, q.subject), vs, |vs|)
                + [ConfigRecord(Some(q.subject), None), ModeRecord(Some(q.subject), None)]
  {
    var vs := Of(s, q.subject);
    assert Tombstones(q.subject, vs)[..|vs|] == Tombstones(q.subject, vs);
  }

  lemma ThenCleared(s: State, t: State, u: State, w: State, q: Request)
    requires q.PermanentDeleteAll?
    requires Gone(s, t, q.subject, Of(s, q.subject), |Of(s, q.subject)|)
    requires Done(DeleteLevel(q.subject), t, u) && Done(ClearMode(q.subject), u, w)
    ensures Done(q, s, w)
  {
    AllCleared(s, q.subject);
    hide Lookup, Cleared, Of;
  }

  lemma PermanentDeleteAllDone(f: Formats, s: State, q: Request)
    requires WF(f, s) && q.PermanentDeleteAll? && Plan(f, q, [s]) != []
    ensures Done(q, s, ApplyAll(f, s, Plan(f, q, [s])))
  {
    hide Plan, Apply, ApplyAll, WF, Removing, Done, Gone;
    var x, vs := q.subject, Of(s, q.subject);
    var removing := Removing(x, NextVersion(s, x), vs, |vs|);
    LiveEntries(f, s, x);
    PermanentDeleteAllPlan(f, s, q);
    RemovingClears(f, s, x, vs, |vs|);
    var t := ApplyAll(f, s, removing);
    var level, mode := ConfigRecord(Some(x), None), ModeRecord(Some(x), None);
    AppliedTwo(f, s, removing, level, mode);
    SettingDone(f, t, DeleteLevel(x));
    SettingDone(f, Apply(f, t, level), ClearMode(x));
    ThenCleared(s, t, Apply(f, t, level), Apply(f, Apply(f, t, level), mode), q);
  }

  lemma AllCleared(s: State, subject: string)
    ensures forall x, v :: Lookup(s, x, v).Some? ==>
              (Cleared(subject, Of(s, subject), |Of(s, subject)|, x, v) <==> x == subject)
  {
    forall v | Lookup(s, subject, v).Some?
      ensures Cleared(subject, Of(s, subject), |Of(s, subject)|, subject, v)
    {
      FoundIn(Of(s, subject), v);
    }
  }

  // ------------------------------------------------------------------
  // Accepted requests
  // ------------------------------------------------------------------

  lemma SoftDeletePlan(f: Formats, s: State, q: Request)
    requires q.SoftDeleteVersion? && Plan(f, q, [s]) != []
    ensures Lookup(s, q.subject, q.version).Some? && Lookup(s, q.subject, q.version).value.id in s.byId
    ensures var id := Lookup(s, q.subject, q.version).value.id;
            Plan(f, q, [s]) == [SchemaRecordOf(q.subject, q.version, id, s.byId[id], true)]
  {}

  /** The marker of a soft-deleted subject names its latest live version. */
  lemma SoftDeleteAllPlan(f: Formats, s: State, q: Request)
    requires WF(f, s) && q.SoftDeleteAll? && Plan(f, q, [s]) != []
    ensures exists v :: IsLatest(s, q.subject, v) && Plan(f, q, [s]) == [DeleteSubject(q.subject, v)]
  {
    var live := LiveOf(Of(s, q.subject));
    hide WF, Unreferenced, EffectiveMode, IsLive;
    LiveIff(f, s, q.subject);
    GreatestOf(live);
    var v := MaxVersion(live);
    assert IsLatest(s, q.subject, v);
  }

  lemma {:induction false} GreatestOf(vs: seq<Entry>)
    requires vs != []
    ensures (exists e <- vs :: e.version == MaxVersion(vs)) && forall e <- vs :: e.version <= MaxVersion(vs)
  {
    assert vs == [vs[0]] + vs[1..] && vs[0] in vs;
    if |vs| > 1 {
      GreatestOf(vs[1..]);
      var e :| e in vs[1..] && e.version == MaxVersion(vs[1..]);
      assert e in vs;
    }
  }

  /** Folding the records of an accepted request does to the store what the request says, and no more. */
  lemma RequestDone(f: Formats, s: State, q: Request)
    requires WF(f, s) && !q.RegisterSchema? && Accepts(f, s, q)
    ensures Done(q, s, ApplyAll(f, s, Plan(f, q, [s])))
  {
    AcceptedIff(f, s, q);
    hide Plan, Accepts, WF, Done, Apply;
    if q.SoftDeleteVersion? {
      SoftDeletePlan(f, s, q);
      SoftDeleteDone(f, s, q);
      AppliedFirst(f, s, Plan(f, q, [s])[0]);
    } else if q.SoftDeleteAll? {
      SoftDeleteAllPlan(f, s, q);
      var v :| IsLatest(s, q.subject, v) && Plan(f, q, [s]) == [DeleteSubject(q.subject, v)];
      SoftDeleteAllDone(f, s, q, v);
      AppliedFirst(f, s, DeleteSubject(q.subject, v));
    } else if q.PermanentDeleteVersion? {
      PermanentDeleteDone(f, s, q);
    } else if q.PermanentDeleteAll? {
      PermanentDeleteAllDone(f, s, q);
    } else {
      SettingPlan(f, s, q);
      SettingDone(f, s, q);
      AppliedFirst(f, s, SettingRecord(q));
    }
  }

  lemma RegistrationPlan(f: Formats, s: State, q: Request)
    requires WF(f, s) && q.RegisterSchema? && Admits(f, s, q)
    ensures |Plan(f, q, [s])| == 1 && Plan(f, q, [s])[0].SchemaRecord?
    ensures Plan(f, q, [s])[0].value.subject == q.subject && !Plan(f, q, [s])[0].value.deleted
  {
    hide Plan, WF, ResolveClosure, Register, EffectiveMode;
    RegistrationIff(f, s, q);
    hide Admits;
  }

  /** Folding an admitted registration makes its version live with its id and leaves every other version, level
      and mode alone. */
  lemma RegistrationDone(f: Formats, s: State, q: Request)
    requires WF(f, s) && q.RegisterSchema? && Admits(f, s, q)
    ensures |Plan(f, q, [s])| == 1 && Plan(f, q, [s])[0].SchemaRecord? && Plan(f, q, [s])[0].value.subject == q.subject
    ensures var v, t := Plan(f, q, [s])[0].value, ApplyAll(f, s, Plan(f, q, [s]));
            && t.byId == s.byId[v.id := v.schema] && t.maxId == Max(s.maxId, v.id) && SameSettings(s, t)
            && (forall x :: x != q.subject ==> NextVersion(t, x) == NextVersion(s, x))
            && forall x, version :: Lookup(t, x, version) ==
                 if x == q.subject && version == v.version then Some(Entry(v.version, v.id, false))
                 else Lookup(s, x, version)
  {
    RegistrationPlan(f, s, q);
    hide Plan, WF, ApplySchema, Lookup, Admits;
    var v := Plan(f, q, [s])[0].value;
    AppliedFirst(f, s, Plan(f, q, [s])[0]);
    Replay.ApplySchemaEntries(f, s, v);
  }

  lemma {:induction false} ReplayedMore(f: Formats, level: Level, mode: Mode, records: seq<Record>, more: seq<Record>)
    ensures Replayed(f, level, mode, records + more) == ApplyAll(f, Replayed(f, level, mode, records), more)
  {
    hide Apply;
    if more == [] {
      assert records + more == records;
    } else {
      var front, last := more[..|more| - 1], more[|more| - 1];
      ReplayedMore(f, level, mode, records, front);
      ReplayedOne(f, level, mode, records + front, last);
      assert records + more == records + front + [last];
    }
  }

  /** The same of a replayed log: a request other than a registration appends records exactly when the
      registry of the log accepts it, and the registry of the longer log is what the request says. */
  lemma ReplayedRequest(f: Formats, level: Level, mode: Mode, records: seq<Record>, q: Request)
    requires !q.RegisterSchema?
    ensures var s := Replayed(f, level, mode, records);
            if Accepts(f, s, q)
            then Plan(f, q, [s]) != [] && Done(q, s, Replayed(f, level, mode, records + Plan(f, q, [s])))
            else Plan(f, q, [s]) == []
  {
    hide Plan, Accepts, Done, Apply;
    var s := Replayed(f, level, mode, records);
    ReplayedKeeps(f, level, mode, records);
    AcceptedIff(f, s, q);
    if Accepts(f, s, q) {
      RequestDone(f, s, q);
      ReplayedMore(f, level, mode, records, Plan(f, q, [s]));
    }
  }

  // ------------------------------------------------------------------
  // Only soft-deleted versions are destroyed
  // ------------------------------------------------------------------

  /** Each tombstone of a log finds its version soft-deleted in the registry of the log before it. */
  ghost predicate Spares(f: Formats, level: Level, mode: Mode, records: seq<Record>) {
    forall i :: 0 <= i < |records| && records[i].Tombstone? ==>
        IsSoftDeleted(Replayed(f, level, mode, records[..i]), records[i].key.subject, records[i].key.version)
  }

  lemma RemovingAt(f: Formats, s: State, subject: string, vs: seq<Entry>, j: nat)
    requires WF(f, s) && Ascending(vs) && j < |vs| && Of(s, subject) != []
    requires forall e <- vs :: IsSoftDeleted(s, subject, e.version)
    ensures IsSoftDeleted(ApplyAll(f, s, Removing(subject, NextVersion(s, subject), vs, j)), subject, vs[j].version)
  {
    RemovingClears(f, s, subject, vs, j);
    assert !Cleared(subject, vs, j, subject, vs[j].version) && vs[j] in vs;
    hide Apply, ApplyAll, Removing;
  }

  // The versions that a permanent delete removes.
  ghost function Removed(s: State, q: Request): seq<Entry>
    requires q.PermanentDeleteVersion? ==> Lookup(s, q.subject, q.version).Some?
  {
    if q.PermanentDeleteVersion? then [Lookup(s, q.subject, q.version).value]
    else if q.PermanentDeleteAll? then Of(s, q.subject) else []
  }

  lemma RemovalPlan(f: Formats, s: State, q: Request)
    requires WF(f, s) && (q.PermanentDeleteVersion? || q.PermanentDeleteAll?) && Plan(f, q, [s]) != []
    ensures q.PermanentDeleteVersion? ==> Lookup(s, q.subject, q.version).Some?
    ensures var vs := Removed(s, q);
            && Ascending(vs) && vs != [] && Of(s, q.subject) != []
            && (forall e <- vs :: IsSoftDeleted(s, q.subject, e.version))
            && Removing(q.subject, NextVersion(s, q.subject), vs, |vs|) <= Plan(f, q, [s])
            && forall i :: |vs| < i < |Plan(f, q, [s])| ==> !Plan(f, q, [s])[i].Tombstone?
  {
    AcceptedIff(f, s, q);
    LiveEntries(f, s, q.subject);
    hide WF, EffectiveMode, Removable;
    if q.PermanentDeleteVersion? {
      PermanentDeletePlan(f, s, q);
      FoundIn(Of(s, q.subject), q.version);
    } else {
      PermanentDeleteAllPlan(f, s, q);
      hide Plan;
      forall e <- Of(s, q.subject) ensures IsSoftDeleted(s, q.subject, e.version) {
        assert IsPresent(s, q.subject, e.version);
      }
    }
  }

  lemma NoTombstone(f: Formats, s: State, q: Request)
    requires !q.PermanentDeleteVersion? && !q.PermanentDeleteAll?
    ensures forall i :: 0 <= i < |Plan(f, q, [s])| ==> !Plan(f, q, [s])[i].Tombstone?
  {}

  // The i-th record of a plan, if it is a tombstone, finds its version soft-deleted.
  lemma PlanSpares(f: Formats, s: State, q: Request, i: nat)
    requires WF(f, s) && i < |Plan(f, q, [s])| && Plan(f, q, [s])[i].Tombstone?
    ensures var key := Plan(f, q, [s])[i].key;
            IsSoftDeleted(ApplyAll(f, s, Plan(f, q, [s])[..i]), key.subject, key.version)
  {
    hide Plan, Apply, WF, IsSoftDeleted;
    var plan := Plan(f, q, [s]);
    if !q.PermanentDeleteVersion? && !q.PermanentDeleteAll? {
      NoTombstone(f, s, q);
    } else {
      RemovalPlan(f, s, q);
      var vs, next := Removed(s, q), NextVersion(s, q.subject);
      var removing := Removing(q.subject, next, vs, |vs|);
      assert 0 < i <= |vs| && plan[i] == removing[i] == Tombstone(SchemaKey(q.subject, vs[i - 1].version));
      assert plan[..i] == removing[..i] == Removing(q.subject, next, vs, i - 1);
      RemovingAt(f, s, q.subject, vs, i - 1);
    }
  }

  ghost function SparesInv(f: Formats, level: Level, mode: Mode): seq<Record> -> bool {
    (rs: seq<Record>) => Spares(f, level, mode, rs)
  }

  lemma SparesWrite(f: Formats, level: Level, mode: Mode, prior: seq<Record>, q: Request, k: nat)
    requires k <= |Plan(f, q, [Replayed(f, level, mode, prior)])| && Spares(f, level, mode, prior)
    ensures Spares(f, level, mode, prior + Plan(f, q, [Replayed(f, level, mode, prior)])[..k])
  {
    hide Plan, Apply, WF, Replayed, ApplyAll;
    var s := Replayed(f, level, mode, prior);
    var plan := Plan(f, q, [s]);
    var records := prior + plan[..k];
    ReplayedKeeps(f, level, mode, prior);
    forall i | 0 <= i < |records| && records[i].Tombstone?
      ensures IsSoftDeleted(Replayed(f, level, mode, records[..i]), records[i].key.subject, records[i].key.version)
    {
      if i < |prior| {
        assert records[..i] == prior[..i] && records[i] == prior[i];
      } else {
        var j := i - |prior|;
        assert records[..i] == prior + plan[..j] && records[i] == plan[j];
        PlanSpares(f, s, q, j);
        ReplayedMore(f, level, mode, prior, plan[..j]);
      }
    }
  }

  /** No tombstone of a serial log destroys a live version, at any prefix of any delete. */
  lemma TombstonesSpareTheLive(f: Formats, level: Level, mode: Mode, records: seq<Record>)
    requires SerialRuns.Serial(Registry(f, level, mode), ANY, records)
    ensures Spares(f, level, mode, records)
  {
    hide Plan, Spares;
    var inv := SparesInv(f, level, mode);
    forall prior, q, k: nat ensures WriteKeeps(f, level, mode, ANY, inv, prior, q, k) {
      if inv(prior) && k <= |Plan(f, q, [Replayed(f, level, mode, prior)])| {
        SparesWrite(f, level, mode, prior, q, k);
      }
    }
    SparesNothing(f, level, mode);
    SerialInduction(f, level, mode, ANY, inv, records);
  }

  lemma SparesNothing(f: Formats, level: Level, mode: Mode)
    ensures Spares(f, level, mode, [])
  {}

  // ------------------------------------------------------------------
  // Levels and modes in force
  // ------------------------------------------------------------------

  /** The level of a subject hides the global one, which hides the default; setting one changes what is in
      force exactly where nothing hides it. */
  lemma LevelInForce(q: Request, s: State, t: State, x: string)
    requires SettingsAfter(q, s, t)
    ensures match q
            case SetLevel(Some(y), level) => EffectiveLevel(t, x) == if x == y then level else EffectiveLevel(s, x)
            case SetLevel(None, level) =>
              EffectiveLevel(t, x) == if x in s.subjectLevel then EffectiveLevel(s, x) else level
            case DeleteLevel(y) => x != y ==> EffectiveLevel(t, x) == EffectiveLevel(s, x)
            case PermanentDeleteAll(y) => x != y ==> EffectiveLevel(t, x) == EffectiveLevel(s, x)
            case _ => EffectiveLevel(t, x) == EffectiveLevel(s, x)
  {}

  lemma ModeInForce(q: Request, s: State, t: State, x: string)
    requires SettingsAfter(q, s, t)
    ensures match q
            case SetMode(Some(y), mode) => EffectiveMode(t, x) == if x == y then mode else EffectiveMode(s, x)
            case SetMode(None, mode) =>
              EffectiveMode(t, x) == if x in s.subjectMode then EffectiveMode(s, x) else mode
            case ClearMode(y) => x != y ==> EffectiveMode(t, x) == EffectiveMode(s, x)
            case PermanentDeleteAll(y) => x != y ==> EffectiveMode(t, x) == EffectiveMode(s, x)
            case _ => EffectiveMode(t, x) == EffectiveMode(s, x)
  {}

  /** Without a setting of its own every subject has the same level and mode, at the start the defaults. */
  lemma FallsBack(s: State, x: string, y: string, level: Level, mode: Mode)
    ensures x !in s.subjectLevel && y !in s.subjectLevel ==> EffectiveLevel(s, x) == EffectiveLevel(s, y)
    ensures x !in s.subjectMode && y !in s.subjectMode ==> EffectiveMode(s, x) == EffectiveMode(s, y) == GlobalMode(s)
    ensures EffectiveLevel(WithDefaults(level, mode), x) == level
    ensures EffectiveMode(WithDefaults(level, mode), x) == mode
  {}
}

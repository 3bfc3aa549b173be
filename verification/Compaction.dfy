/** Log compaction and redelivery: which stores a compacted or partly redelivered log replays to. */
module Compaction {
  import opened Wrappers
  import opened Identity
  import opened Store
  import opened StoreInvariant
  import opened Replay
  import opened RegistryRuns
  import References

  // A version's SCHEMA record and its tombstone share one compaction key.
  datatype Key =
    | VersionKey(key: SchemaKey)
    | DeleteKey(subject: string)
    | NextKey(subject: string)
    | ModeKey(scope: Option<string>)
    | ConfigKey(scope: Option<string>)
    | NoopKey

  function RecordKey(r: Record): Key {
    match r
    case SchemaRecord(k, _) => VersionKey(k)
    case Tombstone(k) => VersionKey(k)
    case DeleteSubject(subject, _) => DeleteKey(subject)
    case HighWater(subject, _) => NextKey(subject)
    case ModeRecord(scope, _) => ModeKey(scope)
    case ConfigRecord(scope, _) => ConfigKey(scope)
    case Noop => NoopKey
  }

  predicate IsNull(r: Record) {
    r.Tombstone? || (r.ModeRecord? && r.mode.None?) || (r.ConfigRecord? && r.level.None?)
  }

  /** A record whose key and value agree, as the encoders write it. */
  predicate Encoded(r: Record) { r.SchemaRecord? ==> r.key == SchemaKey(r.value.subject, r.value.version) }

  // ------------------------------------------------------------------
  // What survives
  // ------------------------------------------------------------------

  type Filter = nat -> bool

  /** The log with only the records at the positions that `keep` selects. */
  function Kept(log: seq<Record>, keep: Filter): seq<Record> {
    if log == [] then []
    else
      var front, n := log[..|log| - 1], |log| - 1;
      if keep(n) then Kept(front, keep) + [log[n]] else Kept(front, keep)
  }

  /** The last kept position with this key, or -1. */
  function Last(log: seq<Record>, keep: Filter, key: Key): int {
    if log == [] then -1
    else if keep(|log| - 1) && RecordKey(log[|log| - 1]) == key then |log| - 1
    else Last(log[..|log| - 1], keep, key)
  }

  const ALL: Filter := (i: nat) => true

  /** The last record of every key survives, or it is null and no record of its key does. Older records
      may or may not survive, and neither may barriers: each has a key of its own, cleared by a tombstone. */
  ghost predicate Compacts(log: seq<Record>, keep: Filter) {
    forall key | key != NoopKey ::
      || Last(log, keep, key) == Last(log, ALL, key)
      || (Last(log, keep, key) == -1 && DropsNull(log, Last(log, ALL, key)))
  }

  ghost predicate DropsNull(log: seq<Record>, i: int) { 0 <= i < |log| && IsNull(log[i]) }

  lemma {:induction false} LastIs(log: seq<Record>, keep: Filter, key: Key)
    ensures var p := Last(log, keep, key);
            && -1 <= p < |log| && (p >= 0 ==> keep(p) && RecordKey(log[p]) == key)
            && forall i: nat :: p < i < |log| && keep(i) ==> RecordKey(log[i]) != key
  {
    if log != [] {
      LastIs(log[..|log| - 1], keep, key);
    }
  }

  lemma {:induction false} KeptAll(log: seq<Record>)
    ensures Kept(log, ALL) == log
  {
    if log != [] {
      KeptAll(log[..|log| - 1]);
    }
  }

  // ------------------------------------------------------------------
  // The view of one version
  // ------------------------------------------------------------------

  /** A version is what the last SCHEMA record of its key says, unless the last record is a tombstone;
      a later marker of its subject makes it deleted. */
  function VersionView(log: seq<Record>, keep: Filter, subject: string, version: int): Option<Entry> {
    LastIs(log, keep, VersionKey(SchemaKey(subject, version)));
    var p := Last(log, keep, VersionKey(SchemaKey(subject, version)));
    if p < 0 || !log[p].SchemaRecord? then None
    else Some(Entry(version, log[p].value.id, log[p].value.deleted || p < Last(log, keep, DeleteKey(subject))))
  }

  /** What one record does to one version. */
  function StepVersion(e: Option<Entry>, r: Record, subject: string, version: int): Option<Entry> {
    match r
    case SchemaRecord(_, v) =>
      if v.subject == subject && v.version == version then Some(Entry(version, v.id, v.deleted)) else e
    case Tombstone(k) => if k == SchemaKey(subject, version) then None else e
    case DeleteSubject(s, _) => if s == subject && e.Some? then Some(e.value.(deleted := true)) else e
    case _ => e
  }

  lemma ApplyStepsVersion(f: Formats, s: State, r: Record, subject: string, version: int)
    requires WF(f, s)
    ensures Lookup(Apply(f, s, r), subject, version) == StepVersion(Lookup(s, subject, version), r, subject, version)
  {
    var pair: Pair := (subject, version);
    match r {
      case SchemaRecord(_, v) => ApplySchemaEntries(f, s, v);
      case Tombstone(k) =>
        References.PermanentDeleteEntries(f, s, k.subject, k.version);
        assert Lookup(Apply(f, s, r), pair.0, pair.1) == Lookup(Apply(f, s, r), subject, version);
      case DeleteSubject(x, _) =>
        References.SoftDeleteSubjectEntries(s, x);
        assert Lookup(Apply(f, s, r), pair.0, pair.1) == Lookup(Apply(f, s, r), subject, version);
      case _ => References.OtherShrinks(f, s, r);
    }
  }

  lemma {:induction false} ViewSteps(log: seq<Record>, keep: Filter, subject: string, version: int)
    requires log != [] && keep(|log| - 1) && forall r <- log :: Encoded(r)
    ensures VersionView(log, keep, subject, version)
        == StepVersion(VersionView(log[..|log| - 1], keep, subject, version), log[|log| - 1], subject, version)
  {
    var front, r := log[..|log| - 1], log[|log| - 1];
    LastIs(front, keep, VersionKey(SchemaKey(subject, version)));
    LastIs(front, keep, DeleteKey(subject));
    assert Encoded(r);
  }

  lemma {:induction false} ReplayShowsVersion(f: Formats, level: Level, mode: Mode, log: seq<Record>, keep: Filter,
          subject: string, version: int)
    requires forall r <- log :: Encoded(r)
    ensures Lookup(Replayed(f, level, mode, Kept(log, keep)), subject, version)
        == VersionView(log, keep, subject, version)
  {
    if log != [] {
      var front, r := log[..|log| - 1], log[|log| - 1];
      ReplayShowsVersion(f, level, mode, front, keep, subject, version);
      if keep(|log| - 1) {
        ReplayedKeeps(f, level, mode, Kept(front, keep));
        ReplayedOne(f, level, mode, Kept(front, keep), r);
        ApplyStepsVersion(f, Replayed(f, level, mode, Kept(front, keep)), r, subject, version);
        ViewSteps(log, keep, subject, version);
      } else {
        LastIs(front, keep, VersionKey(SchemaKey(subject, version)));
      }
    }
  }

  // ------------------------------------------------------------------
  // The view of the settings
  // ------------------------------------------------------------------

  function ModeOf(s: State, scope: Option<string>): Option<Mode> {
    match scope
    case None => s.globalMode
    case Some(subject) => if subject in s.subjectMode then Some(s.subjectMode[subject]) else None
  }

  function LevelOf(s: State, scope: Option<string>): Option<Level> {
    match scope
    case None => s.globalLevel
    case Some(subject) => if subject in s.subjectLevel then Some(s.subjectLevel[subject]) else None
  }

  function ModeView(log: seq<Record>, keep: Filter, scope: Option<string>): Option<Mode> {
    LastIs(log, keep, ModeKey(scope));
    var p := Last(log, keep, ModeKey(scope));
    if p < 0 then None else log[p].mode
  }

  // A null global CONFIG record is ignored.
  predicate SetsGlobalLevel(r: Record) { r.ConfigRecord? && r.scope.None? && r.level.Some? }

  /** What the last kept record that sets the global level says. */
  function GlobalLevelView(log: seq<Record>, keep: Filter): Option<Level> {
    if log == [] then None
    else if keep(|log| - 1) && SetsGlobalLevel(log[|log| - 1]) then log[|log| - 1].level
    else GlobalLevelView(log[..|log| - 1], keep)
  }

  function LevelView(log: seq<Record>, keep: Filter, scope: Option<string>): Option<Level> {
    LastIs(log, keep, ConfigKey(scope));
    var p := Last(log, keep, ConfigKey(scope));
    if scope.None? then GlobalLevelView(log, keep) else if p < 0 then None else log[p].level
  }

  predicate SetsLevel(r: Record, scope: Option<string>) {
    r.ConfigRecord? && r.scope == scope && (scope.Some? || r.level.Some?)
  }

  lemma OthersKeepSettings(f: Formats, s: State, r: Record)
    requires !r.ModeRecord? && !r.ConfigRecord?
    ensures SameSettings(s, Apply(f, s, r))
  {
    match r {
      case SchemaRecord(_, _) =>
      case Tombstone(_) =>
      case DeleteSubject(_, _) =>
      case HighWater(_, _) =>
      case Noop =>
    }
  }

  lemma SettingsStep(s: State, scope: Option<string>, at: Option<string>, mode: Option<Mode>, level: Option<Level>)
    ensures ModeOf(ApplyMode(s, at, mode), scope) == if at == scope then mode else ModeOf(s, scope)
    ensures LevelOf(ApplyMode(s, at, mode), scope) == LevelOf(s, scope)
    ensures ModeOf(ApplyConfig(s, at, level), scope) == ModeOf(s, scope)
    ensures LevelOf(ApplyConfig(s, at, level), scope) == if at == scope && (at.Some? || level.Some?) then level
                                                         else LevelOf(s, scope)
  {}

  lemma ApplyStepsSettings(f: Formats, s: State, r: Record, scope: Option<string>)
    ensures ModeOf(Apply(f, s, r), scope) == if r.ModeRecord? && r.scope == scope then r.mode else ModeOf(s, scope)
    ensures LevelOf(Apply(f, s, r), scope) == if SetsLevel(r, scope) then r.level else LevelOf(s, scope)
  {
    match r {
      case ModeRecord(at, mode) => SettingsStep(s, scope, at, mode, None);
      case ConfigRecord(at, level) => SettingsStep(s, scope, at, None, level);
      case _ => OthersKeepSettings(f, s, r);
    }
  }

  lemma SettingsViewStep(log: seq<Record>, keep: Filter, scope: Option<string>)
    requires log != []
    ensures var front, r, kept := log[..|log| - 1], log[|log| - 1], keep(|log| - 1);
            && ModeView(log, keep, scope) ==
                 (if kept && r.ModeRecord? && r.scope == scope then r.mode else ModeView(front, keep, scope))
            && LevelView(log, keep, scope) ==
                 (if kept && SetsLevel(r, scope) then r.level else LevelView(front, keep, scope))
  {
    LastIs(log[..|log| - 1], keep, ModeKey(scope));
    LastIs(log[..|log| - 1], keep, ConfigKey(scope));
  }

  lemma {:induction false} ReplayShowsSettings(f: Formats, level: Level, mode: Mode, log: seq<Record>, keep: Filter,
          scope: Option<string>)
    ensures ModeOf(Replayed(f, level, mode, Kept(log, keep)), scope) == ModeView(log, keep, scope)
    ensures LevelOf(Replayed(f, level, mode, Kept(log, keep)), scope) == LevelView(log, keep, scope)
  {
    if log != [] {
      var front, r := log[..|log| - 1], log[|log| - 1];
      ReplayShowsSettings(f, level, mode, front, keep, scope);
      SettingsViewStep(log, keep, scope);
      if keep(|log| - 1) {
        ReplayedOne(f, level, mode, Kept(front, keep), r);
        ApplyStepsSettings(f, Replayed(f, level, mode, Kept(front, keep)), r, scope);
      }
    }
  }

  // ------------------------------------------------------------------
  // The same registry
  // ------------------------------------------------------------------

  /** The same subjects, versions, ids and deleted flags, and the same modes and levels. */
  ghost predicate SameView(s: State, t: State) {
    s.subjects == t.subjects && SameSettings(s, t)
  }

  lemma {:induction false} AscendingDetermined(xs: seq<Entry>, ys: seq<Entry>)
    requires Ascending(xs) && Ascending(ys) && forall v :: Find(xs, v) == Find(ys, v)
    ensures xs == ys
  {
    if xs == [] || ys == [] {
      assert Find(xs, if xs == [] then 0 else xs[0].version) == Find(ys, if xs == [] then 0 else xs[0].version);
      assert Find(xs, if ys == [] then 0 else ys[0].version) == Find(ys, if ys == [] then 0 else ys[0].version);
    } else {
      var x, y := xs[0], ys[0];
      FoundIff(ys, x);
      FoundIff(xs, y);
      assert x == y;
      assert xs == [x] + xs[1..] && ys == [y] + ys[1..];
      forall v ensures Find(xs[1..], v) == Find(ys[1..], v) {
        assert Find(xs, v) == Find(ys, v);
        FoundIn(xs[1..], v);
        FoundIn(ys[1..], v);
      }
      AscendingDetermined(xs[1..], ys[1..]);
    }
  }

  lemma SubjectsDetermined(f: Formats, s: State, t: State)
    requires WF(f, s) && WF(f, t)
    requires forall subject, version :: Lookup(s, subject, version) == Lookup(t, subject, version)
    ensures s.subjects == t.subjects
  {
    forall subject ensures Of(s, subject) == Of(t, subject) {
      forall v ensures Find(Of(s, subject), v) == Find(Of(t, subject), v) {
        assert Lookup(s, subject, v) == Lookup(t, subject, v);
      }
      assert Ascending(Of(s, subject)) && Ascending(Of(t, subject));
      AscendingDetermined(Of(s, subject), Of(t, subject));
    }
    forall subject ensures subject in s.subjects <==> subject in t.subjects {
      assert Of(s, subject) == Of(t, subject);
      assert subject in s.subjects ==> ListOk(s, s.subjects[subject], s.nextVersions[subject]);
      assert subject in t.subjects ==> ListOk(t, t.subjects[subject], t.nextVersions[subject]);
    }
    forall subject <- s.subjects ensures s.subjects[subject] == t.subjects[subject] {
      assert Of(s, subject) == Of(t, subject);
    }
  }

  lemma SettingsDetermined(s: State, t: State)
    requires s.defaultLevel == t.defaultLevel && s.defaultMode == t.defaultMode
    requires forall scope :: ModeOf(s, scope) == ModeOf(t, scope) && LevelOf(s, scope) == LevelOf(t, scope)
    ensures SameSettings(s, t)
  {
    assert ModeOf(s, None) == ModeOf(t, None) && LevelOf(s, None) == LevelOf(t, None);
    forall x: string ensures x in s.subjectMode <==> x in t.subjectMode {
      assert ModeOf(s, Some(x)) == ModeOf(t, Some(x));
    }
    forall x: string ensures x in s.subjectLevel <==> x in t.subjectLevel {
      assert LevelOf(s, Some(x)) == LevelOf(t, Some(x));
    }
    forall x <- s.subjectMode ensures s.subjectMode[x] == t.subjectMode[x] {
      assert ModeOf(s, Some(x)) == ModeOf(t, Some(x));
    }
    forall x <- s.subjectLevel ensures s.subjectLevel[x] == t.subjectLevel[x] {
      assert LevelOf(s, Some(x)) == LevelOf(t, Some(x));
    }
  }

  lemma DefaultsStep(f: Formats, s: State, r: Record)
    ensures Apply(f, s, r).defaultLevel == s.defaultLevel && Apply(f, s, r).defaultMode == s.defaultMode
  {
    hide ApplySchema, PermanentDelete, SoftDeleteSubject, ObserveNext;
    match r {
      case ModeRecord(_, _) =>
      case ConfigRecord(_, _) =>
      case _ => OthersKeepSettings(f, s, r);
    }
  }

  lemma {:induction false} DefaultsStay(f: Formats, level: Level, mode: Mode, log: seq<Record>)
    ensures Replayed(f, level, mode, log).defaultLevel == level && Replayed(f, level, mode, log).defaultMode == mode
  {
    if log != [] {
      var front, r := log[..|log| - 1], log[|log| - 1];
      DefaultsStay(f, level, mode, front);
      ReplayedOne(f, level, mode, front, r);
      assert front + [r] == log;
      DefaultsStep(f, Replayed(f, level, mode, front), r);
    }
  }

  /** Two logs show the same: of every version, mode and level the last record says the same. */
  ghost predicate SameRecords(a: seq<Record>, p: Filter, b: seq<Record>, q: Filter) {
    && (forall subject, version :: VersionView(a, p, subject, version) == VersionView(b, q, subject, version))
    && (forall scope :: ModeView(a, p, scope) == ModeView(b, q, scope))
    && forall scope :: LevelView(a, p, scope) == LevelView(b, q, scope)
  }

  // Logs that show the same replay to the same registry.
  lemma ViewsDetermine(f: Formats, level: Level, mode: Mode, a: seq<Record>, p: Filter, b: seq<Record>, q: Filter)
    requires (forall r <- a :: Encoded(r)) && (forall r <- b :: Encoded(r)) && SameRecords(a, p, b, q)
    ensures SameView(Replayed(f, level, mode, Kept(a, p)), Replayed(f, level, mode, Kept(b, q)))
  {
    hide WF, VersionView, ModeView, LevelView;
    var s, t := Replayed(f, level, mode, Kept(a, p)), Replayed(f, level, mode, Kept(b, q));
    ReplayedKeeps(f, level, mode, Kept(a, p));
    ReplayedKeeps(f, level, mode, Kept(b, q));
    forall subject, version ensures Lookup(s, subject, version) == Lookup(t, subject, version) {
      ReplayShowsVersion(f, level, mode, a, p, subject, version);
      ReplayShowsVersion(f, level, mode, b, q, subject, version);
    }
    SubjectsDetermined(f, s, t);
    forall scope ensures ModeOf(s, scope) == ModeOf(t, scope) && LevelOf(s, scope) == LevelOf(t, scope) {
      ReplayShowsSettings(f, level, mode, a, p, scope);
      ReplayShowsSettings(f, level, mode, b, q, scope);
    }
    DefaultsStay(f, level, mode, Kept(a, p));
    DefaultsStay(f, level, mode, Kept(b, q));
    SettingsDetermined(s, t);
  }

  lemma SameSettingsShow(s: State, t: State, scope: Option<string>)
    requires SameSettings(s, t)
    ensures ModeOf(s, scope) == ModeOf(t, scope) && LevelOf(s, scope) == LevelOf(t, scope)
  {}

  // Logs that replay to the same registry show the same.
  lemma RegistryShows(f: Formats, level: Level, mode: Mode, a: seq<Record>, p: Filter, b: seq<Record>, q: Filter)
    requires (forall r <- a :: Encoded(r)) && (forall r <- b :: Encoded(r))
    requires SameView(Replayed(f, level, mode, Kept(a, p)), Replayed(f, level, mode, Kept(b, q)))
    ensures SameRecords(a, p, b, q)
  {
    hide VersionView, ModeView, LevelView, SameSettings;
    var s, t := Replayed(f, level, mode, Kept(a, p)), Replayed(f, level, mode, Kept(b, q));
    forall subject, version ensures VersionView(a, p, subject, version) == VersionView(b, q, subject, version) {
      ReplayShowsVersion(f, level, mode, a, p, subject, version);
      ReplayShowsVersion(f, level, mode, b, q, subject, version);
      assert Of(s, subject) == Of(t, subject);
    }
    forall scope
      ensures ModeView(a, p, scope) == ModeView(b, q, scope) && LevelView(a, p, scope) == LevelView(b, q, scope)
    {
      ReplayShowsSettings(f, level, mode, a, p, scope);
      ReplayShowsSettings(f, level, mode, b, q, scope);
      SameSettingsShow(s, t, scope);
    }
  }

  /** Whatever records a cleaner took away: the rest replays to the registry of the full log exactly when of
      every version, mode and level the last surviving record says what the last record says. */
  lemma KeptShowsLogIff(f: Formats, level: Level, mode: Mode, log: seq<Record>, keep: Filter)
    requires forall r <- log :: Encoded(r)
    ensures SameView(Replayed(f, level, mode, Kept(log, keep)), Replayed(f, level, mode, log)) <==>
          SameRecords(log, keep, log, ALL)
  {
    hide SameView, SameRecords;
    KeptAll(log);
    if SameRecords(log, keep, log, ALL) { ViewsDetermine(f, level, mode, log, keep, log, ALL); }
    if SameView(Replayed(f, level, mode, Kept(log, keep)), Replayed(f, level, mode, log)) {
      RegistryShows(f, level, mode, log, keep, log, ALL);
    }
  }

  // ------------------------------------------------------------------
  // Compaction
  // ------------------------------------------------------------------

  lemma CompactionKeepsSubjects(log: seq<Record>, keep: Filter)
    requires Compacts(log, keep)
    ensures forall subject, version ::
          VersionView(log, keep, subject, version) == VersionView(log, ALL, subject, version)
    ensures forall scope :: ModeView(log, keep, scope) == ModeView(log, ALL, scope)
    ensures forall scope: Option<string> :: scope.Some? ==> LevelView(log, keep, scope) == LevelView(log, ALL, scope)
  {
    forall subject, version
      ensures VersionView(log, keep, subject, version) == VersionView(log, ALL, subject, version)
    {
      LastIs(log, ALL, VersionKey(SchemaKey(subject, version)));
      LastIs(log, ALL, DeleteKey(subject));
    }
    forall scope ensures ModeView(log, keep, scope) == ModeView(log, ALL, scope) { LastIs(log, ALL, ModeKey(scope)); }
    forall scope: Option<string> | scope.Some? ensures LevelView(log, keep, scope) == LevelView(log, ALL, scope) {
      LastIs(log, ALL, ConfigKey(scope));
    }
  }

  /** The two registries may differ in the global level. */
  ghost predicate SameButGlobalLevel(s: State, t: State) { SameView(s.(globalLevel := None), t.(globalLevel := None)) }

  /** Every compaction of a log replays to the same registry as the full log but for the global level; that
      is the same exactly when the last surviving record that sets it says what the last one says. */
  lemma CompactionKeepsView(f: Formats, level: Level, mode: Mode, log: seq<Record>, keep: Filter)
    requires (forall r <- log :: Encoded(r)) && Compacts(log, keep)
    ensures var s, t := Replayed(f, level, mode, Kept(log, keep)), Replayed(f, level, mode, log);
            && SameButGlobalLevel(s, t)
            && (SameView(s, t) <==> GlobalLevelView(log, keep) == GlobalLevelView(log, ALL))
  {
    hide WF, VersionView, ModeView, Compacts;
    var s, t := Replayed(f, level, mode, Kept(log, keep)), Replayed(f, level, mode, log);
    KeptAll(log);
    CompactionKeepsSubjects(log, keep);
    ReplayedKeeps(f, level, mode, Kept(log, keep));
    ReplayedKeeps(f, level, mode, log);
    forall subject, version ensures Lookup(s, subject, version) == Lookup(t, subject, version) {
      ReplayShowsVersion(f, level, mode, log, keep, subject, version);
      ReplayShowsVersion(f, level, mode, log, ALL, subject, version);
    }
    SubjectsDetermined(f, s, t);
    SettingsButGlobalLevel(f, level, mode, log, keep);
    ReplayShowsSettings(f, level, mode, log, keep, None);
    ReplayShowsSettings(f, level, mode, log, ALL, None);
  }

  lemma SettingsButGlobalLevel(f: Formats, level: Level, mode: Mode, log: seq<Record>, keep: Filter)
    requires Compacts(log, keep)
    ensures SameSettings(Replayed(f, level, mode, Kept(log, keep)).(globalLevel := None),
            Replayed(f, level, mode, log).(globalLevel := None))
  {
    hide VersionView, ModeView, LevelView, Compacts;
    KeptAll(log);
    CompactionKeepsSubjects(log, keep);
    var s, t := Replayed(f, level, mode, Kept(log, keep)), Replayed(f, level, mode, log);
    var a, b := s.(globalLevel := None), t.(globalLevel := None);
    forall scope ensures ModeOf(a, scope) == ModeOf(b, scope) && LevelOf(a, scope) == LevelOf(b, scope) {
      ReplayShowsSettings(f, level, mode, log, keep, scope);
      ReplayShowsSettings(f, level, mode, log, ALL, scope);
      assert ModeOf(a, scope) == ModeOf(s, scope) && ModeOf(b, scope) == ModeOf(t, scope);
      assert scope.Some? ==> LevelOf(a, scope) == LevelOf(s, scope) && LevelOf(b, scope) == LevelOf(t, scope);
    }
    DefaultsStay(f, level, mode, Kept(log, keep));
    DefaultsStay(f, level, mode, log);
    SettingsDetermined(a, b);
  }

  lemma {:induction false} GlobalLevelIs(log: seq<Record>, keep: Filter)
    requires ConfigRecord(None, None) !in log
    ensures var p := Last(log, keep, ConfigKey(None));
            -1 <= p < |log| && GlobalLevelView(log, keep) == if p >= 0 && log[p].ConfigRecord? then log[p].level
                                                             else None
  {
    LastIs(log, keep, ConfigKey(None));
    if log != [] {
      var front := log[..|log| - 1];
      assert forall r <- front :: r in log;
      assert log[|log| - 1] in log;
      LastIs(front, keep, ConfigKey(None));
      GlobalLevelIs(front, keep);
    }
  }

  /** Without null global CONFIG records, which no encoder writes, the global level is kept as well. */
  lemma EncodedLevelIsKept(log: seq<Record>, keep: Filter)
    requires Compacts(log, keep) && ConfigRecord(None, None) !in log
    ensures GlobalLevelView(log, keep) == GlobalLevelView(log, ALL)
  {
    GlobalLevelIs(log, keep);
    GlobalLevelIs(log, ALL);
    LastIs(log, ALL, ConfigKey(None));
    if DropsNull(log, Last(log, ALL, ConfigKey(None))) { assert log[Last(log, ALL, ConfigKey(None))] in log; }
  }

  // What follows a compacted part is not compacted.
  lemma {:induction false} CompactsOn(records: seq<Record>, n: nat, keep: Filter)
    requires n <= |records| && Compacts(records[..n], keep) && forall i: nat :: n <= i ==> keep(i)
    ensures Compacts(records, keep)
  {
    if n == |records| {
      assert records[..n] == records;
    } else {
      var front := records[..|records| - 1];
      assert front[..n] == records[..n];
      CompactsOn(front, n, keep);
      forall key | key != NoopKey
        ensures || Last(records, keep, key) == Last(records, ALL, key)
                || (Last(records, keep, key) == -1 && DropsNull(records, Last(records, ALL, key)))
      {
        LastIs(front, ALL, key);
        assert Last(front, keep, key)
            == Last(front, ALL, key) || (Last(front, keep, key) == -1 && DropsNull(front, Last(front, ALL, key)));
      }
    }
  }

  lemma {:induction false} LastUnique(log: seq<Record>, key: Key, p: nat)
    requires p < |log| && RecordKey(log[p]) == key && forall i: nat :: p < i < |log| ==> RecordKey(log[i]) != key
    ensures Last(log, ALL, key) == p
  {
    LastIs(log, ALL, key);
  }

  // Where the last record of a key is after log[from..] was delivered again.
  function Again(log: seq<Record>, from: nat, p: int): int
    requires from <= |log|
  {
    if p >= from then p + |log| - from else p
  }

  lemma LastAgain(log: seq<Record>, from: nat, key: Key)
    requires from <= |log|
    ensures Last(log + log[from..], ALL, key) == Again(log, from, Last(log, ALL, key))
  {
    var p, twice := Last(log, ALL, key), log + log[from..];
    LastIs(log, ALL, key);
    LastIs(twice, ALL, key);
    assert forall i: nat :: |log| <= i < |twice| ==> twice[i] == log[i - |log| + from];
    if p >= 0 {
      LastUnique(twice, key, Again(log, from, p));
    }
  }

  lemma VersionAgain(log: seq<Record>, from: nat, subject: string, version: int)
    requires from <= |log|
    ensures VersionView(log + log[from..], ALL, subject, version) == VersionView(log, ALL, subject, version)
  {
    var key := VersionKey(SchemaKey(subject, version));
    LastAgain(log, from, key);
    LastAgain(log, from, DeleteKey(subject));
    LastIs(log, ALL, key);
    LastIs(log, ALL, DeleteKey(subject));
  }

  lemma {:induction false} GlobalLevelConcat(a: seq<Record>, b: seq<Record>)
    ensures GlobalLevelView(a + b, ALL) == if GlobalLevelView(b, ALL).Some? then GlobalLevelView(b, ALL)
                                           else GlobalLevelView(a, ALL)
  {
    if b == [] {
      assert a + b == a;
    } else {
      assert (a + b)[..|a + b| - 1] == a + b[..|b| - 1];
      GlobalLevelConcat(a, b[..|b| - 1]);
    }
  }

  lemma SettingsAgain(log: seq<Record>, from: nat, scope: Option<string>)
    requires from <= |log|
    ensures ModeView(log + log[from..], ALL, scope) == ModeView(log, ALL, scope)
    ensures LevelView(log + log[from..], ALL, scope) == LevelView(log, ALL, scope)
  {
    hide Last, GlobalLevelView;
    LastAgain(log, from, ModeKey(scope));
    LastAgain(log, from, ConfigKey(scope));
    LastIs(log, ALL, ModeKey(scope));
    LastIs(log, ALL, ConfigKey(scope));
    GlobalLevelAgain(log, from);
  }

  lemma GlobalLevelAgain(log: seq<Record>, from: nat)
    requires from <= |log|
    ensures GlobalLevelView(log + log[from..], ALL) == GlobalLevelView(log, ALL)
  {
    hide GlobalLevelView;
    GlobalLevelConcat(log, log[from..]);
    GlobalLevelConcat(log[..from], log[from..]);
    assert log[..from] + log[from..] == log;
  }

  /** Delivering an already applied suffix again leaves the registry the same. */
  lemma RedeliveryKeepsView(f: Formats, level: Level, mode: Mode, log: seq<Record>, from: nat)
    requires (forall r <- log :: Encoded(r)) && from <= |log|
    ensures SameView(Replayed(f, level, mode, log + log[from..]), Replayed(f, level, mode, log))
  {
    var twice := log + log[from..];
    KeptAll(log);
    KeptAll(twice);
    forall subject, version
      ensures VersionView(twice, ALL, subject, version) == VersionView(log, ALL, subject, version)
    {
      VersionAgain(log, from, subject, version);
    }
    forall scope
      ensures ModeView(twice, ALL, scope) == ModeView(log, ALL, scope)
      ensures LevelView(twice, ALL, scope) == LevelView(log, ALL, scope)
    {
      SettingsAgain(log, from, scope);
    }
    ViewsDetermine(f, level, mode, twice, ALL, log, ALL);
  }

  /** A null global CONFIG record, which no encoder writes, and a compaction that changes the registry: the
      fold ignores the record, but compaction drops the level it follows. */
  lemma NullGlobalLevelBreaks(f: Formats, level: Level, mode: Mode)
    ensures var log := [ConfigRecord(None, Some(Full)), ConfigRecord(None, None)];
            var keep: Filter := (i: nat) => i == 1;
            Compacts(log, keep) && !SameView(Replayed(f, level, mode, Kept(log, keep)), Replayed(f, level, mode, log))
  {
    hide SameView;
    var a, b := ConfigRecord(None, Some(Full)), ConfigRecord(None, None);
    var keep: Filter := (i: nat) => i == 1;
    var log := [a, b];
    assert log[..|log| - 1] == [a] && [a][..|[a]| - 1] == [];
    forall key ensures Last(log, keep, key) == Last(log, ALL, key) {
      assert Last([a], keep, key) == -1;
      LastIs(log, ALL, key);
    }
    assert GlobalLevelView([a], keep) == GlobalLevelView([], keep) == None;
    assert GlobalLevelView([a], ALL) == Some(Full);
    CompactionKeepsView(f, level, mode, log, keep);
  }
}

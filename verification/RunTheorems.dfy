/** Identity and reference integrity of every serial committed log, hence of every run. */
module RunTheorems {
  import opened Wrappers
  import opened Identity
  import opened Store
  import opened StoreInvariant
  import opened Replay
  import opened Operations
  import opened RegistryRuns
  import Closure
  import SerialRuns

  // ------------------------------------------------------------------
  // Shape of a plan
  // ------------------------------------------------------------------

  /** A plan is one SCHEMA record, or contains none. */
  lemma PlanShape(f: Formats, q: Request, s: State)
    ensures var plan := Plan(f, q, [s]);
            (|plan| == 1 && plan[0].SchemaRecord?) || forall r <- plan :: !r.SchemaRecord?
  {
    if q.PermanentDeleteAll? {
      assert forall r <- Tombstones(q.subject, Of(s, q.subject)) :: r.Tombstone?;
    }
  }

  lemma ApplyOther(f: Formats, s: State, r: Record)
    requires !r.SchemaRecord?
    ensures SameIdentities(s, Apply(f, s, r))
  {
    match r {
      case Tombstone(k) =>
      case DeleteSubject(subject, _) =>
      case HighWater(_, _) =>
      case ModeRecord(_, _) =>
      case ConfigRecord(_, _) =>
      case Noop =>
    }
  }

  /** A planned SCHEMA record never gives an id a second identity. */
  lemma PlanKeepsIdentity(f: Formats, q: Request, s: State, v: SchemaValue)
    requires WF(f, s) && Plan(f, q, [s]) != [] && Plan(f, q, [s])[0].SchemaRecord? && Plan(f, q, [s])[0].value == v
    ensures v.id in s.byId ==> KeyOf(f, s.byId[v.id]) == KeyOf(f, v.schema)
  {
    if q.RegisterSchema? {
      if !EffectiveMode(s, q.subject).Import? {
        var key := KeyOf(f, v.schema);
        if FindUnder(s, q.subject, key, true).Some? {
          FoundIdIn(Of(s, q.subject), s.byCanonical[key], true);
        }
      }
    }
  }

  // ------------------------------------------------------------------
  // One id, one identity
  // ------------------------------------------------------------------

  ghost predicate IdentityHeld(f: Formats, records: seq<Record>, s: State) {
    forall r <- records :: r.SchemaRecord? ==>
        r.value.id in s.byId && KeyOf(f, s.byId[r.value.id]) == KeyOf(f, r.value.schema)
  }

  lemma IdentityWrite(f: Formats, level: Level, mode: Mode, prior: seq<Record>, q: Request, k: nat)
    requires k <= |Plan(f, q, [Replayed(f, level, mode, prior)])|
    requires IdentityHeld(f, prior, Replayed(f, level, mode, prior))
    ensures var records := prior + Plan(f, q, [Replayed(f, level, mode, prior)])[..k];
            IdentityHeld(f, records, Replayed(f, level, mode, records))
  {
    hide Plan, KeyOf;
    var s := Replayed(f, level, mode, prior);
    var plan := Plan(f, q, [s]);
    ReplayedKeeps(f, level, mode, prior);
    PlanShape(f, q, s);
    if k == 0 {
      assert prior + plan[..0] == prior;
    } else if plan[0].SchemaRecord? {
      assert plan[..k] == [plan[0]];
      PlanKeepsIdentity(f, q, s, plan[0].value);
      ReplayedOne(f, level, mode, prior, plan[0]);
      ApplySchemaEntries(f, s, plan[0].value);
    } else {
      OtherRecords(f, level, mode, prior, plan[..k]);
    }
  }

  lemma {:induction false} OtherRecords(f: Formats, level: Level, mode: Mode, prior: seq<Record>, more: seq<Record>)
    requires forall r <- more :: !r.SchemaRecord?
    ensures Replayed(f, level, mode, prior + more).byId == Replayed(f, level, mode, prior).byId
  {
    if more == [] {
      assert prior + more == prior;
    } else {
      var rest, last := more[..|more| - 1], more[|more| - 1];
      OtherRecords(f, level, mode, prior, rest);
      ReplayedOne(f, level, mode, prior + rest, last);
      ApplyOther(f, Replayed(f, level, mode, prior + rest), last);
      assert prior + more == prior + rest + [last];
    }
  }

  ghost function IdentityInv(f: Formats, level: Level, mode: Mode): seq<Record> -> bool {
    (rs: seq<Record>) => IdentityHeld(f, rs, Replayed(f, level, mode, rs))
  }

  lemma IdentityWriteKeeps(f: Formats, level: Level, mode: Mode, prior: seq<Record>, q: Request, k: nat)
    ensures WriteKeeps(f, level, mode, ANY, IdentityInv(f, level, mode), prior, q, k)
  {
    if IdentityInv(f, level, mode)(prior) && k <= |Plan(f, q, [Replayed(f, level, mode, prior)])| {
      IdentityWrite(f, level, mode, prior, q, k);
    }
  }

  lemma IdentityInSerialLog(f: Formats, level: Level, mode: Mode, records: seq<Record>)
    requires SerialRuns.Serial(Registry(f, level, mode), ANY, records)
    ensures IdentityHeld(f, records, Replayed(f, level, mode, records))
  {
    var inv := IdentityInv(f, level, mode);
    forall prior, q, k ensures WriteKeeps(f, level, mode, ANY, inv, prior, q, k) {
      IdentityWriteKeeps(f, level, mode, prior, q, k);
    }
    SerialInduction(f, level, mode, ANY, inv, records);
  }

  /** In every serial log, whatever mix of modes, deletes and resurrections produced it, all SCHEMA
      records with one id have one identity. */
  lemma OneIdentityPerId(f: Formats, level: Level, mode: Mode, records: seq<Record>, i: nat, j: nat)
    requires SerialRuns.Serial(Registry(f, level, mode), ANY, records) && i < |records| && j < |records|
    requires records[i].SchemaRecord? && records[j].SchemaRecord? && records[i].value.id == records[j].value.id
    ensures KeyOf(f, records[i].value.schema) == KeyOf(f, records[j].value.schema)
  {
    IdentityInSerialLog(f, level, mode, records);
    assert records[i] in records && records[j] in records;
  }

  /** Outside IMPORT mode a registration gives an existing (subject, version) another identity
      exactly when it found no version to reuse and version numbers are exhausted. */
  lemma RegistrationNeverRebinds(f: Formats, q: Request, s: State, v: SchemaValue)
    requires WF(f, s) && q.RegisterSchema? && !EffectiveMode(s, q.subject).Import?
    requires Plan(f, q, [s]) == [SchemaRecord(SchemaKey(v.subject, v.version), v)]
    ensures Lookup(s, v.subject, v.version).Some? ==> Lookup(s, v.subject, v.version).value.id in s.byId
    ensures && Lookup(s, v.subject, v.version).Some?
            && KeyOf(f, s.byId[Lookup(s, v.subject, v.version).value.id]) != KeyOf(f, v.schema) ==>
              FindUnder(s, q.subject, KeyOf(f, v.schema), true).None? && MAX_VERSION <= NextVersion(s, q.subject)
  {
    DecisionRebindsOnlyAtTheEnd(f, s, q.subject, v.schema, Registered(v.id, v.version));
    PlanKeepsIdentity(f, q, s, v);
    FoundIn(Of(s, v.subject), v.version);
  }
}

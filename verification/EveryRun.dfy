/** The registry's guarantees in every world of every run of the write protocol: any interleaving of
    elections, stale primaries, fences, barriers, aborted or partial writes and reader progress. */
module EveryRun {
  import opened Wrappers
  import opened Identity
  import opened Store
  import opened Operations
  import opened RegistryRuns
  import SchemaLog
  import StoreInvariant
  import Protocol
  import SerialDecisions
  import SerialRuns
  import RunTheorems
  import References
  import History
  import Compaction
  import VersionNumbers
  import Allocation
  import Acceptance
  import Effects
  import WriteProgress

  type RegistryWorld = Protocol.World<State, Record, Request>

  type RegistryStep = Protocol.Step<Request>

  /** One world of a run of the registry. */
  ghost predicate Reached(f: Formats, level: Level, mode: Mode, w: RegistryWorld, run: seq<RegistryWorld>,
          steps: seq<RegistryStep>) {
    Protocol.IsRun(Registry(f, level, mode), run, steps) && exists i :: 0 <= i < |run| && run[i] == w
  }

  lemma ReachedIsSerial(f: Formats, level: Level, mode: Mode, ok: Condition, w: RegistryWorld,
          run: seq<RegistryWorld>, steps: seq<RegistryStep>, p: nat)
    requires Reached(f, level, mode, w, run, steps) && SerialRuns.Allowed(Registry(f, level, mode), ok, w.log)
    requires p <= |w.log|
    ensures SerialRuns.Serial(Registry(f, level, mode), ok, SchemaLog.Visible(w.log[..p]))
  {
    var i :| 0 <= i < |run| && run[i] == w;
    RegistryIsLawful(f, level, mode);
    SerialRuns.RunKeeps(Registry(f, level, mode), run, steps, i);
    SerialRuns.LogIsSerial(Registry(f, level, mode), ok, w, p);
  }

  /** All committed SCHEMA records with one id have one identity. */
  lemma CommittedIdentity(f: Formats, level: Level, mode: Mode, w: RegistryWorld, run: seq<RegistryWorld>,
          steps: seq<RegistryStep>, i: nat, j: nat)
    requires Reached(f, level, mode, w, run, steps)
    requires var records := SchemaLog.Visible(w.log);
             && i < |records| && j < |records| && records[i].SchemaRecord? && records[j].SchemaRecord?
             && records[i].value.id == records[j].value.id
    ensures KeyOf(f, SchemaLog.Visible(w.log)[i].value.schema) == KeyOf(f, SchemaLog.Visible(w.log)[j].value.schema)
  {
    ReachedIsSerial(f, level, mode, ANY, w, run, steps, |w.log|);
    assert w.log[..|w.log|] == w.log;
    RunTheorems.OneIdentityPerId(f, level, mode, SchemaLog.Visible(w.log), i, j);
  }

  /** At every log prefix the ids of the committed SCHEMA records are 1, 2, and so on without a gap, if no
      registration was taken in IMPORT mode. */
  lemma CommittedIdsAreDense(f: Formats, level: Level, mode: Mode, w: RegistryWorld, run: seq<RegistryWorld>,
          steps: seq<RegistryStep>, p: nat)
    requires Reached(f, level, mode, w, run, steps) && p <= |w.log|
    requires SerialRuns.Allowed(Registry(f, level, mode), Allocation.NoImport(), w.log)
    ensures forall id :: Allocation.Uses(SchemaLog.Visible(w.log[..p]), id) <==>
              1 <= id <= SerialDecisions.StateAt(Registry(f, level, mode), w.log, p).maxId
  {
    ReachedIsSerial(f, level, mode, Allocation.NoImport(), w, run, steps, p);
    Allocation.IdsAreDense(f, level, mode, SchemaLog.Visible(w.log[..p]));
  }

  /** Every run can go on so that an able node completes a request: the log then holds what the request plans on
      the registry of everything committed, and the node's live store shows it. */
  lemma RequestCompletes(f: Formats, level: Level, mode: Mode, run: seq<RegistryWorld>, steps: seq<RegistryStep>,
          n: nat, q: Request) returns (longer: seq<RegistryWorld>, more: seq<RegistryStep>)
    requires Protocol.IsRun(Registry(f, level, mode), run, steps) && WriteProgress.Able(run[|run| - 1], n)
    ensures Protocol.IsRun(Registry(f, level, mode), longer, steps + more) && run <= longer
    ensures var records, x := SchemaLog.Visible(run[|run| - 1].log), longer[|longer| - 1];
            && SchemaLog.Visible(x.log) == records + Plan(f, q, [Replayed(f, level, mode, records)])
            && n < |x.nodes| && x.nodes[n].reader.live == Replayed(f, level, mode, SchemaLog.Visible(x.log))
  {
    var m := Registry(f, level, mode);
    RegistryIsLawful(f, level, mode);
    hide SchemaLog.Lawful, Plan, Apply, WriteProgress.Able, Protocol.Do, Protocol.Init;
    longer, more := WriteProgress.RunCompletes(m, run, steps, n, q, 1);
    var s := Replayed(f, level, mode, SchemaLog.Visible(run[|run| - 1].log));
    assert WriteProgress.Copies(s, 1) == [s] by { assert WriteProgress.Copies(s, 0) == []; }
  }

  /** A committed tombstone finds its version soft-deleted in the registry of everything committed before it. */
  lemma CommittedTombstoneSparesTheLive(f: Formats, level: Level, mode: Mode, w: RegistryWorld,
          run: seq<RegistryWorld>, steps: seq<RegistryStep>, o: nat)
    requires Reached(f, level, mode, w, run, steps) && o < |w.log| && w.log[o].Txn?
    requires w.log[o].status.Committed? && w.log[o].record.Tombstone?
    ensures var s, key := SerialDecisions.StateAt(Registry(f, level, mode), w.log, o), w.log[o].record.key;
            Acceptance.IsSoftDeleted(s, key.subject, key.version)
  {
    hide Plan, Apply, Acceptance.IsSoftDeleted;
    var records := SchemaLog.Visible(w.log[..o + 1]);
    ReachedIsSerial(f, level, mode, ANY, w, run, steps, o + 1);
    Effects.TombstonesSpareTheLive(f, level, mode, records);
    assert w.log[..o + 1][..o] == w.log[..o];
    assert records == SchemaLog.Visible(w.log[..o]) + [w.log[o].record];
    assert records[..|records| - 1] == SchemaLog.Visible(w.log[..o]);
  }

  /** A committed registration outside IMPORT leaves the (subject, version) it lands on unused or with
      the identity it had, until version numbers are exhausted. */
  lemma CommittedRegistrationNeverRebinds(f: Formats, level: Level, mode: Mode, w: RegistryWorld,
          run: seq<RegistryWorld>, steps: seq<RegistryStep>, o: nat)
    requires Reached(f, level, mode, w, run, steps)
    requires o < |w.log| && w.log[o].Txn? && w.log[o].status.Committed? && w.log[o].write.request.RegisterSchema?
    requires w.log[o].write.barrier <= |w.log|
    requires var s := SerialDecisions.StateAt(Registry(f, level, mode), w.log, w.log[o].write.barrier);
             && !EffectiveMode(s, w.log[o].write.request.subject).Import?
             && NextVersion(s, w.log[o].write.request.subject) < MAX_VERSION
    ensures w.log[o].record.SchemaRecord?
    ensures var s := SerialDecisions.StateAt(Registry(f, level, mode), w.log, w.log[o].write.barrier);
            var v := w.log[o].record.value;
            match Lookup(s, v.subject, v.version)
            case Some(e) => e.id in s.byId && KeyOf(f, s.byId[e.id]) == KeyOf(f, v.schema)
            case None => true
  {
    var records, q := SchemaLog.Visible(w.log[..w.log[o].write.barrier]), w.log[o].write.request;
    var s := Replayed(f, level, mode, records);
    ReplayedKeeps(f, level, mode, records);
    PlannedFrom(f, level, mode, w, run, steps, o);
    References.PlannedAnchors(f, s, q, false);
    RunTheorems.RegistrationNeverRebinds(f, q, s, w.log[o].record.value);
  }

  ghost function EncodedInv(): seq<Record> -> bool {
    (rs: seq<Record>) => forall r <- rs :: Compaction.Encoded(r)
  }

  lemma PlanIsEncoded(f: Formats, q: Request, s: State)
    requires StoreInvariant.WF(f, s)
    ensures forall r <- Plan(f, q, [s]) :: Compaction.Encoded(r)
  {
    hide Plan;
    VersionNumbers.PlanIsSafe(f, s, [], {}, q);
    forall r <- Plan(f, q, [s]) ensures Compaction.Encoded(r) {
      var i :| 0 <= i < |Plan(f, q, [s])| && Plan(f, q, [s])[i] == r;
      assert VersionNumbers.Safe([] + Plan(f, q, [s])[..i], {} + VersionNumbers.Committed(Plan(f, q, [s])[..i]), r);
    }
  }

  lemma SerialIsEncoded(f: Formats, level: Level, mode: Mode, records: seq<Record>)
    requires SerialRuns.Serial(Registry(f, level, mode), ANY, records)
    ensures forall r <- records :: Compaction.Encoded(r)
  {
    hide Plan;
    forall prior, q, k ensures WriteKeeps(f, level, mode, ANY, EncodedInv(), prior, q, k) {
      ReplayedKeeps(f, level, mode, prior);
      PlanIsEncoded(f, q, Replayed(f, level, mode, prior));
    }
    SerialInduction(f, level, mode, ANY, EncodedInv(), records);
  }

  /** A committed registration outside IMPORT that reuses no version gets a number above every number
      committed for its subject before, until version numbers are exhausted: also above deleted ones. */
  lemma CommittedVersionIsNew(f: Formats, level: Level, mode: Mode, w: RegistryWorld, run: seq<RegistryWorld>,
          steps: seq<RegistryStep>, o: nat, i: nat)
    requires Reached(f, level, mode, w, run, steps)
    requires o < |w.log| && w.log[o].Txn? && w.log[o].status.Committed? && w.log[o].write.request.RegisterSchema?
    requires w.log[o].write.barrier <= |w.log|
    requires var s := SerialDecisions.StateAt(Registry(f, level, mode), w.log, w.log[o].write.barrier);
             && !EffectiveMode(s, w.log[o].write.request.subject).Import?
             && (w.log[o].record.SchemaRecord? ==>
                   FindUnder(s, w.log[o].write.request.subject, KeyOf(f, w.log[o].record.value.schema), true).None?)
    requires var earlier := SchemaLog.Visible(w.log[..o]);
             && i < |earlier| && earlier[i].SchemaRecord?
             && earlier[i].key.subject == w.log[o].write.request.subject && earlier[i].key.version < MAX_VERSION
    ensures w.log[o].record.SchemaRecord? && w.log[o].record.value.subject == w.log[o].write.request.subject
    ensures SchemaLog.Visible(w.log[..o])[i].key.version < w.log[o].record.value.version
  {
    hide Plan, StoreInvariant.WF, Apply, KeyOf, Lookup;
    var m, write := Registry(f, level, mode), w.log[o].write;
    var records := SchemaLog.Visible(w.log[..write.barrier]);
    var s := Replayed(f, level, mode, records);
    PlannedFrom(f, level, mode, w, run, steps, o);
    ReachedIsSerial(f, level, mode, ANY, w, run, steps, write.barrier);
    SerialIsEncoded(f, level, mode, records);
    ReplayedKeeps(f, level, mode, records);
    References.PlannedAnchors(f, s, write.request, false);
    assert records[i] in records;
    VersionNumbers.ReplayedAbove(f, level, mode, records, records[i], records[i].key);
    FreshNumber(f, s, write.request);
  }

  // A committed registration is the one record of its plan, and nothing committed since its barrier.
  lemma PlannedFrom(f: Formats, level: Level, mode: Mode, w: RegistryWorld, run: seq<RegistryWorld>,
          steps: seq<RegistryStep>, o: nat)
    requires Reached(f, level, mode, w, run, steps)
    requires o < |w.log| && w.log[o].Txn? && w.log[o].status.Committed? && w.log[o].write.request.RegisterSchema?
    requires w.log[o].write.barrier <= |w.log|
    ensures var records := SchemaLog.Visible(w.log[..w.log[o].write.barrier]);
            && SchemaLog.Visible(w.log[..o]) == records
            && Plan(f, w.log[o].write.request, [Replayed(f, level, mode, records)]) == [w.log[o].record]
  {
    var m, write := Registry(f, level, mode), w.log[o].write;
    var i :| 0 <= i < |run| && run[i] == w;
    RegistryIsLawful(f, level, mode);
    SerialRuns.CommittedIsSerial(m, run, steps, i, o);
    var records := SchemaLog.Visible(w.log[..write.barrier]);
    var s := Replayed(f, level, mode, records);
    ReplayedKeeps(f, level, mode, records);
    assert m.plan(write.request, write.snapshots) == Plan(f, write.request, write.snapshots);
    PlanAt(f, write.request, write.snapshots, s);
    References.PlannedAnchors(f, s, write.request, false);
    assert records + Plan(f, write.request, [s])[..0] == records;
  }

  lemma FreshNumber(f: Formats, s: State, q: Request)
    requires q.RegisterSchema? && !EffectiveMode(s, q.subject).Import? && |Plan(f, q, [s])| == 1
    requires Plan(f, q, [s])[0].SchemaRecord?
    requires FindUnder(s, q.subject, KeyOf(f, Plan(f, q, [s])[0].value.schema), true).None?
    ensures Plan(f, q, [s])[0].value.version == NextVersion(s, q.subject)
    ensures Plan(f, q, [s])[0].value.subject == q.subject
  {
    hide KeyOf, ResolveClosure, Enlisted;
  }

  /** At every log prefix a live version refers only to present versions; only to live ones, so that
      its whole closure resolves, if every committed registration named live targets. */
  lemma CommittedReferences(f: Formats, level: Level, mode: Mode, w: RegistryWorld, run: seq<RegistryWorld>,
          steps: seq<RegistryStep>, p: nat, strict: bool)
    requires Reached(f, level, mode, w, run, steps) && p <= |w.log|
    requires SerialRuns.Allowed(Registry(f, level, mode), References.LiveTargets(strict), w.log)
    ensures var s := SerialDecisions.StateAt(Registry(f, level, mode), w.log, p);
            && References.Intact(s, strict)
            && (strict ==> forall key :: References.LiveSchema(s, key).Some? ==>
                ResolveClosure(s, References.LiveSchema(s, key).value.references).Ok?)
  {
    var records := SchemaLog.Visible(w.log[..p]);
    ReachedIsSerial(f, level, mode, References.LiveTargets(strict), w, run, steps, p);
    References.ReferencesIntact(f, level, mode, records, strict);
    ReplayedKeeps(f, level, mode, records);
    var s := Replayed(f, level, mode, records);
    if strict {
      forall key | References.LiveSchema(s, key).Some?
        ensures ResolveClosure(s, References.LiveSchema(s, key).value.references).Ok?
      {
        References.LiveClosureResolves(f, s, key);
      }
    }
  }

  /** At every log prefix any two live versions of a subject are mutually compatible, if all its
      registrations were of one type, taken at FULL_TRANSITIVE and out of IMPORT, and no schema of another
      type elsewhere took the canonical form of one of that type. */
  lemma CommittedHistory(f: Formats, level: Level, mode: Mode, w: RegistryWorld, run: seq<RegistryWorld>,
          steps: seq<RegistryStep>, p: nat,
                         ty: SchemaType, subject: string, compatible: History.Relation)
    requires Reached(f, level, mode, w, run, steps) && p <= |w.log| && History.Relational(f, ty, compatible)
    requires SerialRuns.Allowed(Registry(f, level, mode), History.Discipline(f, ty, subject), w.log)
    ensures History.Mutual(f, SerialDecisions.StateAt(Registry(f, level, mode), w.log, p), ty, subject, compatible)
  {
    ReachedIsSerial(f, level, mode, History.Discipline(f, ty, subject), w, run, steps, p);
    History.LiveVersionsAreCompatible(f, level, mode, ty, subject, compatible, SchemaLog.Visible(w.log[..p]));
  }
}

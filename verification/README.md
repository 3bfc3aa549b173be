# Krabka Schema Registry: a verified model

A Dafny 4.11 model of the schema registry, its write protocol, its JSON Schema compatibility engine
and its codecs. `dafny verify dfyconfig.toml` checks all of it.

**The replicated schema log.** The registry is the fold of the `_schemas` topic. `Store` is the folded
state as a value, `StoreState` the same state as the object that records are folded into.
`Operations` says which records each API request appends, given the store snapshots it reads.
`SchemaLog`, `Reader` and `Protocol` model the gated write as steps of competing nodes over one log
(fence, ordering barrier, wait, recheck, decide, fenced transactions, confirming barrier), for an
arbitrary fold; `SerialDecisions` and `SerialRuns` show that each committed record was decided from
exactly the records committed before it. `WriteProgress`, `StalledWrites` and `PublishedWrites` show that
an able primary completes its write, which primaries are not able, and that a node deposed while it
synchronised writes nothing. `Acceptance` and `Effects` say when each request is accepted and what it does,
`Allocation` which ids and versions are given. `RunTheorems`, `References`, `History` and `EveryRun` draw
the consequences for ids, references and compatibility in every run. `Compaction` and `VersionNumbers`
treat compaction, redelivery, crashes and restarts, `Repeats` a registration that is sent again.
`ReaderLoop` is the reader task as an object, with recreated topics and a cleaner at work;
`RegistryReader` supplies its store and says when a barrier keeps its promise.

**JSON compatibility.** `Canonical` is the canonical text, `JsonDiff` and `JsonCompare` specify the
recursive diff, `JsonKinds` classifies differences, `JsonEngine` is the diff as it pushes differences,
`Matching` pairs branches in place. `JsonMeaning` is the meaning of a schema, `JsonSoundness` justifies the
classification by it, `JsonKeywords` says which keywords are compared at all, `JsonLimits` shows where the
verdict is wrong, `JsonExact` and `JsonVerdict` exactly when it is positive. `JsonPointers` says what a
reference means, `JsonTermination` and `JsonReferences` when the comparison ends,
`JsonDivergence` exactly when it does not.

**Codecs and walks.** `Identity` and `IdentityKeys` (dedup key), `Closure` and `Resolver` (reference
walks of server and client), `DescriptorImport` (import order), `Wire` (varints and frames), `Cache`
(writer-schema cache), `Election` (one primary per generation).

How the model is cut:

- Formats are functions of a datatype (`parses`, `canon`, `normal`, `check`). As in the code, the
  canonical form ignores resolved references and the dedup key does not contain the schema type.
- Modes and levels are enumerations; ids and versions are integers with the saturation at i32::MAX
  written out. Allocating an id past i32::MAX, which overflows in the code, is the error `IdsExhausted`.
- A JSON object is a map, visited in key order, as the code's ordered map is. A number is an integer or
  the exact value of a double; how numbers print is a parameter, required to be injective.
- Barrier tokens are fresh numbers, clocks and fetch outcomes are parameters, timeouts and
  cancellations are steps that may happen at any time.
- The comparison carries a fuel that bounds its recursion; it stands for the call stack, a result does
  not depend on it, and it suffices for some bound whenever the code ends.

Where documentation and code disagree the model follows the code: the diff's cycle guard is documented
to make recursive references end, but each combinator branch starts a fresh guard.
`JsonDivergence.NeverEndsIff` says which comparisons do not end, `JsonDivergence.LinkedListNeverEnds`
gives one. Ignoring a null global CONFIG record is documented as safe, but compaction removes the level
before it (`Compaction.NullGlobalLevelBreaks`). A barrier is documented to make every earlier record
readable, but a cleaner may take a record away before a replay reads it (`RegistryReader.PublishTooEarly`).
A primary initialises its producer once per generation; if an initialisation that its predecessor requested
arrives later, the primary stays published and cannot write until the next election (`StalledWrites.FencedOff`,
with the exact condition in `StalledWrites.WriteCompletesIff`).

## Model

| member | source | states |
|---|---|---|
| SerialRuns.StepKeeps | crates/schema-registry/src/kafkastore/writer.rs:98-204 | every step of the write protocol (elections, stale primaries, fencing, barriers, transactional appends, commits, aborts, reader progress, crashes of a write) keeps the inductive invariant of the whole world |
| SerialRuns.CommittedIsSerial | crates/schema-registry/src/kafkastore/mod.rs:203-254 | in every world of every interleaving, a committed record continues its write's plan without a gap, and every store snapshot the write read equals the fold of exactly the records committed before the write |
| SerialRuns.RunIsSerial | crates/schema-registry/src/kafkastore/mod.rs:203-254 | the committed log of every world is a concatenation of whole or partial writes, each planned from the fold of everything before it |
| SerialRuns.SerialInduction | crates/schema-registry/src/kafkastore/mod.rs:203-254 | what every partial write keeps, when planned from the fold of the log before it, holds of every such log |
| SerialRuns.ReturnedIsVisible | crates/schema-registry/src/kafkastore/mod.rs:774-827 | a write that returns has each of its records committed inside the prefix that the local live store has folded |
| WriteProgress.WriteCompletes | crates/schema-registry/src/kafkastore/writer.rs:98-204 | from every world that satisfies the invariant, steps of an able idle primary alone carry any request to its end: back to idle with nothing appended if the plan on the fold of everything committed is empty, otherwise returned, with exactly that plan more in the visible log and in its live store |
| WriteProgress.RunCompletes | crates/schema-registry/src/kafkastore/mod.rs:203-254 | every run can be extended so, whatever happened in it before |
| StalledWrites.WriteCompletesIff | crates/schema-registry/src/kafkastore/writer.rs:127-149 | an idle primary of the current generation can complete a write with a plan exactly when its producer was not replaced after it fenced the generation |
| StalledWrites.StalledNeverAppends | crates/schema-registry/src/kafkastore/writer.rs:127-149 | otherwise no record of that node is ever appended again in its generation, whatever the other nodes do, because a generation is not fenced twice |
| StalledWrites.FencedOff | crates/schema-registry/src/kafkastore/writer.rs:127-149 | a reachable world with such an idle, undisturbed primary: the initialisation requested by its predecessor arrives after it has fenced |
| StalledWrites.ElectionMakesAble | crates/schema-registry/src/election/client.rs:274-292 | whatever has happened in a run, an election of a node makes it able to write, with nothing committed or lost |
| StalledWrites.EveryRequestCanComplete | crates/schema-registry/src/kafkastore/mod.rs:203-254 | so every run can go on until any node has completed any request, with exactly its plan on the fold of everything committed more in the log |
| PublishedWrites.WritersWerePublished | crates/schema-registry/src/kafkastore/mod.rs:243-254 | in every run, a write that reads snapshots or has a record in the log was found published primary for its own generation once its barrier had come back |
| PublishedWrites.OthersAreSentAway | crates/schema-registry/src/kafkastore/mod.rs:243-254 | a node whose published state is not that of its generation when its barrier has come back is idle again, and no world of the run holds a record of that write |
| EveryRun.RequestCompletes | crates/schema-registry/src/kafkastore/mod.rs:203-254 | the same for the registry: every run can go on so that an able node completes any API request, and the log then holds what the request plans on the registry of everything committed |
| Reader.FetchKeepsInv | crates/schema-registry/src/kafkastore/reader.rs:585-617 | a fetch keeps the live store equal to the fold of the visible log below its position, also when it completes a rebuild, and publishes only barriers that store has passed; a rebuild completes exactly when the fetch reaches its end, and the cursor is then the folded position |
| Reader.ResetKeepsInv | crates/schema-registry/src/kafkastore/reader.rs:631-648 | starting a replay keeps the live store and the seen barriers, and the inherited id high water is reached by the end of the replay |
| Reader.ResetStartsOver | crates/schema-registry/src/kafkastore/reader.rs:631-648 | a replay begins at the start, ends where it was told to, and its snapshot inherits the id high waters of the live store and of a replay it interrupts |
| Election.SelectedIsLeast | crates/schema-registry/src/election/protocol.rs:75-83 | the selected master is an eligible member with the least URL; there is none exactly when no member is eligible |
| Election.SelectedIsFirst | crates/schema-registry/src/election/protocol.rs:75-83 | of eligible members with one URL the one listed first is selected |
| Election.SelectionIgnoresOrder | crates/schema-registry/src/election/protocol.rs:75-83 | the choice depends only on the members, not on their order, when eligible URLs are distinct |
| Election.OnePrimaryPerGeneration | crates/schema-registry/src/election/client.rs:274-292 | of nodes with distinct identities one generation makes at most one primary, only an eligible one, and one when an eligible member takes part |
| StoreInvariant.ApplyKeeps | crates/schema-registry/src/kafkastore/reader.rs:382-431 | folding any record keeps the store invariant: the two identity indexes are inverse and agree with the stored schemas, entries ascend, name stored schemas and stay below the next version, no id exceeds the maximum |
| StoreInvariant.RegisterKeeps | crates/schema-registry/src/store/mod.rs:126-179 | deciding on a clone keeps that invariant exactly when a version is reused or the next version is above all others, which holds below i32::MAX |
| StoreStates.UpsertEntry | crates/schema-registry/src/store/mod.rs:338-349 | the found entry is overwritten in place, a new one is placed by a stable sort |
| StoreStates.StoreState.ResolveReferences | crates/schema-registry/src/store/mod.rs:224-256 | the recursive walk over the live store ends on every store, cyclic ones included, and fills out, seen names and visited as the walk function says, or names the first absent reference |
| StoreStates.StoreState.ObserveNextVersion | crates/schema-registry/src/store/mod.rs:360-366 | a subject's next version becomes the maximum of the old one and the observed one |
| StoreStates.StoreState.ApplySchemaRecord | crates/schema-registry/src/store/mod.rs:303-350 | the in-place fold of a SCHEMA record: high waters, re-indexing of the id, stored schema, entry |
| StoreStates.StoreState.SoftDelete | crates/schema-registry/src/store/mod.rs:594-604 | every version of the subject becomes deleted and their numbers are returned; nothing happens on an absent or empty subject |
| StoreStates.StoreState.PermanentDeleteVersion | crates/schema-registry/src/store/mod.rs:609-625 | exactly that version goes, an emptied subject goes with it, the high water stays, and the version is returned only if it was there |
| StoreStates.StoreState.FindUnderSubjectCanonical | crates/schema-registry/src/store/mod.rs:407-423 | the first entry under the subject with the id indexed under the key, deleted ones only on request |
| StoreStates.StoreState.RegisterSchema | crates/schema-registry/src/store/mod.rs:126-179 | the in-place decision; a new identity gets the id one above the old maximum, which becomes the maximum, and the next version of the subject or 1; on an error the store is unchanged |
| Allocation.CarriedIsReused | crates/schema-registry/src/store/mod.rs:378-405 | a subject that carries the identity, soft-deleted or not, answers with the lowest version that does, and the store is unchanged |
| Allocation.OthersAreAllocated | crates/schema-registry/src/store/mod.rs:126-179 | any other subject gets its next version, 1 if it was never seen; an identity that is known keeps its id and the maximum, a new one gets the id one above the maximum, which moves by one |
| Allocation.IdentityIsStored | crates/schema-registry/src/store/mod.rs:378-405 | an identity has an id only when a stored schema has that identity |
| Allocation.NextIsGreatest | crates/schema-registry/src/store/mod.rs:352-373 | after any log the next version of a subject is the greatest that a record makes it expect: one above a SCHEMA version, saturating, or a high-water record |
| Allocation.IdsAreDense | crates/schema-registry/src/store/mod.rs:126-179 | without IMPORT the ids of the SCHEMA records of every serial log are 1, 2, and so on without a gap |
| StoreStates.StoreState.ApplyRecord | crates/schema-registry/src/kafkastore/reader.rs:382-431 | the object after any decoded record is the value the fold function gives |
| Replay.ReplayMakesLive | crates/schema-registry/src/kafkastore/mod.rs:377-417 | replaying the record of a decision makes exactly the decided version live with the decided id and leaves every other version of every subject alone |
| Replay.DecisionRebindsOnlyAtTheEnd | crates/schema-registry/src/store/mod.rs:126-179 | the decided version carries another id already exactly when nothing could be reused, version numbers are exhausted and the last one is taken |
| Replay.RegisterAgainIff | crates/schema-registry/src/kafkastore/mod.rs:377-417 | registering again after the replay returns the same pair and changes nothing exactly when the schema parses with its references both as its id is rebound and after the whole replay |
| Repeats.AcyclicIsUndisturbed | crates/schema-registry/src/store/mod.rs:378-405 | with acyclic references and clean keys no decision replaces a schema of its own closure, also when it reuses an id: a reachable schema with that id would refer to everything the registered one refers to |
| Repeats.AcyclicRepeatsAlike | crates/schema-registry/src/store/mod.rs:407-423 | then a repeated register after the replay returns the same pair and changes nothing |
| Repeats.CyclicRepeatIsRefused | crates/schema-registry/src/kafkastore/mod.rs:317-417 | a registry reached through IMPORT in which a schema refers to itself and a repeated register is refused instead: each record is what its request plans |
| Replay.FreshIsUndisturbed | crates/schema-registry/src/store/mod.rs:126-179 | a decision that hands out a new id never replaces a schema of its own closure |
| RegistryRuns.RegistryIsLawful | crates/schema-registry/src/store/mod.rs:111-113 | inheriting an id high water commutes with folding every record and is absorbed once the fold has reached it |
| Operations.PlanAt | crates/schema-registry/src/kafkastore/mod.rs:317-423 | a write all of whose store reads agree appends what a single read of that store decides |
| Acceptance.RegistrationIff | crates/schema-registry/src/kafkastore/mod.rs:317-423 | a registration appends a record exactly when mode, references, parse, compatibility and the import or allocation conditions on the store admit it, and the record holds the stored schema with the imported or allocated pair |
| Acceptance.AcceptedIff | crates/schema-registry/src/kafkastore/mod.rs:429-772 | every request appends records exactly when a condition on entries, deleted flags, live referrers, modes and levels holds; a permanent delete demands a soft-deleted version, or a subject without live ones |
| Effects.RequestDone | crates/schema-registry/src/kafkastore/mod.rs:429-772 | folding the records of an accepted request flags or removes exactly the versions in its scope, or changes exactly the level or mode in its scope, and leaves every other entry, schema, next version and setting as it was |
| Effects.RegistrationDone | crates/schema-registry/src/kafkastore/mod.rs:317-423 | folding an admitted registration makes its version live with its id and changes no other version, level or mode |
| Effects.ReplayedRequest | crates/schema-registry/src/kafkastore/mod.rs:429-772 | the same between replays of logs: acceptance on the registry of the log, effect on the registry of the longer log, refusal appends nothing |
| Effects.SoftDeleteAllPlan | crates/schema-registry/src/kafkastore/mod.rs:601-643 | the marker of a soft-deleted subject names its latest live version |
| Effects.LevelInForce | crates/schema-registry/src/compat/mod.rs:86-92 | setting or deleting a level changes the level in force exactly where no subject level hides it |
| Effects.ModeInForce | crates/schema-registry/src/store/mod.rs:641-656 | the same of modes |
| Effects.TombstonesSpareTheLive | crates/schema-registry/src/kafkastore/mod.rs:545-705 | no tombstone of a serial log finds its version live, at any prefix of any delete |
| EveryRun.CommittedTombstoneSparesTheLive | crates/schema-registry/src/kafkastore/mod.rs:545-705 | in every run a committed tombstone finds its version soft-deleted in the registry of everything committed before it |
| EveryRun.CommittedIdsAreDense | crates/schema-registry/src/store/mod.rs:126-179 | in every run without IMPORT, at every log prefix, the ids of the committed SCHEMA records are 1, 2, and so on without a gap |
| Closure.ClosureFailsIffMissing | crates/schema-registry/src/store/mod.rs:213-256 | the closure fails exactly when some (subject, version) reachable over references is absent |
| Closure.ClosureIsOrdered | crates/schema-registry/src/store/mod.rs:224-256 | when names and (subject, version) pairs correspond and no pair is reached from its own schema, the closure lists exactly the reachable pairs, each once, with their texts, after all they refer to |
| Closure.RankedIffAcyclic | crates/schema-registry/src/store/mod.rs:224-256 | no pair is reached from its own schema exactly when a rank falls along every reference |
| Resolver.ReferenceResolver.ResolveSources | crates/schema-serde/src/registry/mod.rs:228-269 | the recursive client resolver, with its depth limit and cycle check, as a state change of sources, order and pairs being resolved |
| Resolver.ClientAgreesWithServer | crates/schema-serde/src/registry/mod.rs:216-269 | whenever the client resolves, the server does, to the same names in the same order with the same texts |
| Resolver.ClientResolvesShallow | crates/schema-serde/src/registry/mod.rs:228-269 | the client resolves every closure of present pairs in which no path of references reaches its limit of 64, whatever the names; a cycle has paths of every length |
| Resolver.FirstReferencesEnd | crates/schema-serde/src/registry/mod.rs:228-269 | what the client resolves has first references that end, all present, before the limit: no name is known on the way down |
| Resolver.ChainResolvesIff | crates/schema-serde/src/registry/mod.rs:228-269 | a chain of schemas with one reference each is resolved exactly when it ends within 64 levels and all of it is present |
| RunTheorems.PlanKeepsIdentity | crates/schema-registry/src/store/mod.rs:378-405 | no registration or import plans a record that gives an existing id another identity |
| RunTheorems.OneIdentityPerId | crates/schema-registry/src/store/mod.rs:378-405 | in every serial log all SCHEMA records with one id have one identity key |
| RunTheorems.RegistrationNeverRebinds | crates/schema-registry/src/kafkastore/mod.rs:377-400 | outside IMPORT a planned record puts another identity on an existing version only if nothing was reused and version numbers are exhausted |
| EveryRun.CommittedIdentity | crates/schema-registry/src/kafkastore/mod.rs:317-423 | in every world of every run, mixing modes, deletes and resurrections, all committed SCHEMA records with one id have one identity |
| EveryRun.CommittedRegistrationNeverRebinds | crates/schema-registry/src/kafkastore/mod.rs:377-417 | in every run a committed non-IMPORT registration lands on an unused version or on one with the same identity, until version numbers are exhausted |
| IdentityKeys.KeyIff | crates/schema-registry/src/store/mod.rs:184-202 | two schemas have one dedup key exactly when canonical form, multiset of references and message type agree, where the empty message type counts as none once there are references; no part may contain a separator |
| IdentityKeys.KeyIsIdentity | crates/schema-registry/src/store/mod.rs:184-202 | without empty message types the key is equality of the three parts |
| IdentityKeys.KeyFixesCanonical | crates/schema-registry/src/store/mod.rs:184-202 | equal keys have equal canonical forms as soon as those contain no U+0000 |
| IdentityKeys.EmptyTypeCollides | crates/schema-registry/src/store/mod.rs:198-201 | the empty message type has the key of no message type once there are references |
| Canonical.CanonicalIsIdentity | crates/schema-registry/src/format/json/mod.rs:95-120 | two JSON values have one canonical text exactly when they are equal, objects as unordered maps |
| Canonical.TextUnique | crates/schema-registry/src/format/json/mod.rs:95-120 | a value's canonical text, whatever delimiter follows, is the text of no other value: unique decodability |
| Canonical.JsonKeyIsIdentity | crates/schema-registry/src/store/mod.rs:184-202 | two JSON schemas share a dedup key exactly when they are equal JSON values with one multiset of references and one message type; canonical text cannot contain a separator |
| References.ReferencedByNone | crates/schema-registry/src/store/mod.rs:271-296 | an empty referrer list means that no live version refers to the pair |
| References.ReferencesIntact | crates/schema-registry/src/kafkastore/mod.rs:497-705 | in every serial log, at every prefix of a multi-record delete, a live version refers only to present versions, and only to live ones if registrations named live targets |
| References.LiveClosureResolves | crates/schema-registry/src/store/mod.rs:213-256 | when live versions refer only to live versions, every live closure resolves |
| References.OtherWritesDwindle | crates/schema-registry/src/kafkastore/mod.rs:497-705 | a write that is no registration only removes or soft-deletes versions and changes no schema, at each of its prefixes |
| EveryRun.CommittedReferences | crates/schema-registry/src/kafkastore/mod.rs:497-705 | the same in every run of the write protocol, at every log prefix |
| CompatibilityChecks.CheckAgainstHistory | crates/schema-registry/src/compat/mod.rs:128-184 | collects exactly the failed directions; there are none exactly when the candidate reads, or is read by, the live version with the greatest number or every live version, as the level in force says |
| Acceptance.CheckedIff | crates/schema-registry/src/compat/mod.rs:74-184 | the check of a registration passes exactly when: at BACKWARD the candidate reads the live version with the greatest number, at FORWARD it is read by it, at FULL both, at the transitive levels the same of every live version, at NONE always; soft-deleted versions play no part |
| CompatibilityChecks.VersionsSchemas | crates/schema-registry/src/store/mod.rs:575-591 | the stored schemas of the live entries in ascending order |
| History.AcceptedReads | crates/schema-registry/src/compat/mod.rs:128-184 | a candidate accepted at FULL_TRANSITIVE reads, and is read by, every live version |
| History.LiveVersionsAreCompatible | crates/schema-registry/src/kafkastore/mod.rs:377-400 | any two live versions of a subject are mutually compatible when its registrations were all of one type and taken at FULL_TRANSITIVE and out of IMPORT, after any deletes and resurrections; registrations elsewhere are of any type that takes no canonical form of that type |
| EveryRun.CommittedHistory | crates/schema-registry/src/kafkastore/mod.rs:377-400 | the same in every run of the write protocol, at every log prefix |
| Compaction.ReplayShowsVersion | crates/schema-registry/src/kafkastore/reader.rs:382-394 | a replay shows for each version what the last SCHEMA record of its key says, deleted by a later subject marker, absent after a tombstone |
| Compaction.KeptShowsLogIff | crates/schema-registry/src/kafkastore/reader.rs:382-431 | whatever records were taken away, the rest replays to the registry of the full log exactly when of every version, mode and level the last surviving record says what the last record says |
| Compaction.CompactionKeepsView | crates/schema-registry/src/kafkastore/reader.rs:382-431 | every compaction, with or without the barriers, replays to the same subjects, versions, ids, deleted flags, modes and subject levels; the global level is kept exactly when the last surviving record that sets it says what the last one says |
| Compaction.EncodedLevelIsKept | crates/schema-registry/src/kafkastore/reader.rs:419-428 | without null global CONFIG records, which no encoder writes, it always is |
| Compaction.RedeliveryKeepsView | crates/schema-registry/src/kafkastore/reader.rs:382-431 | delivering an already applied suffix again leaves the same view |
| Compaction.NullGlobalLevelBreaks | crates/schema-registry/src/kafkastore/reader.rs:419-428 | a null global CONFIG record is ignored by the fold, and a compaction that loses the level it follows |
| VersionNumbers.RemovalIsSafe | crates/schema-registry/src/kafkastore/mod.rs:577-594 | the high-water record goes first and covers every committed version, so each tombstone after it is guarded at every prefix |
| VersionNumbers.CompactionKeepsGuards | crates/schema-registry/src/kafkastore/record.rs:130-144 | compaction keeps what guards a version number: its last SCHEMA record or a high-water record above it |
| VersionNumbers.ReplayIsAbove | crates/schema-registry/src/kafkastore/reader.rs:382-431 | a replay of any compaction of the log has next versions above everything committed |
| VersionNumbers.EventKeeps | crates/schema-registry/src/kafkastore/mod.rs:662-700 | partial writes, compactions, deliveries that lag or repeat, and replays from scratch keep each committed version guarded in the log, and below each store's offset all that guards it taken in by the store, whatever was compacted between two deliveries |
| VersionNumbers.CaughtUpIsAbove | crates/schema-registry/src/kafkastore/mod.rs:774-827 | so a store that has passed its barrier has next versions above everything committed |
| VersionNumbers.FreshVersionIsNew | crates/schema-registry/src/store/mod.rs:352-373 | after any history of crashed writes, compactions, lagging deliveries and restarts a node past its barrier gives a fresh version above every version ever committed for the subject, below i32::MAX |
| EveryRun.CommittedVersionIsNew | crates/schema-registry/src/store/mod.rs:352-373 | in every run of the write protocol a committed non-IMPORT registration that reuses no version is above every version committed for its subject before, deleted ones included, below i32::MAX |
| VersionNumbers.LargestIsReused | crates/schema-registry/src/store/mod.rs:352-358 | at i32::MAX the saturating high water hands out the same version again |
| ReaderLoop.BarrierTracker.ReserveToken | crates/schema-registry/src/kafkastore/reader.rs:67-71 | the token becomes pending; seen stays within pending and invalidated apart from it |
| ReaderLoop.BarrierTracker.ObserveToken | crates/schema-registry/src/kafkastore/reader.rs:73-78 | only a pending token becomes seen; the sets stay consistent |
| ReaderLoop.BarrierTracker.Poll | crates/schema-registry/src/kafkastore/reader.rs:80-90 | invalidated is reported first and once, then pending, and a seen token is used up; the sets stay consistent |
| ReaderLoop.BarrierTracker.CancelToken | crates/schema-registry/src/kafkastore/reader.rs:92-97 | the token leaves all three sets |
| ReaderLoop.BarrierTracker.InvalidatePending | crates/schema-registry/src/kafkastore/reader.rs:99-104 | every pending token becomes invalidated and nothing stays seen |
| ReaderLoop.InvalidatedNeverSeen | crates/schema-registry/src/kafkastore/reader.rs:80-104 | an invalidated token that is not reserved again never polls Seen, whatever is called in between |
| ReaderLoop.StoreReader.OnFetch | crates/schema-registry/src/kafkastore/reader.rs:585-617 | skipping records below the cursor, folding the rest into the snapshot or the live store, swapping a complete rebuild and publishing barriers keeps the reader valid, redelivery without a cursor included; exactly the observed pending tokens become seen |
| ReaderLoop.StoreReader.BeginRebuild | crates/schema-registry/src/kafkastore/reader.rs:330-355 | with nothing to replay the live store becomes a fresh one, otherwise it stays and a fresh snapshot is filled up to the end |
| ReaderLoop.StoreReader.OnReset | crates/schema-registry/src/kafkastore/reader.rs:631-648 | a replay of whatever records a cleaner leaves keeps the reader valid and, while it is filled, the live store and the passed barriers |
| ReaderLoop.StoreReader.OnConnected | crates/schema-registry/src/kafkastore/reader.rs:513-545 | a recreated topic invalidates every pending barrier, also when its bounds cannot be read, and is replayed without the old high water; the same topic changes nothing |
| ReaderLoop.StoreReader.PollBarrier | crates/schema-registry/src/kafkastore/mod.rs:793-827 | a barrier is seen only when the live store of the current topic incarnation shows every record delivered to it before the barrier; it shows every record that was visible exactly when what was delivered shows that; an invalidated token is never seen |
| RegistryReader.RegistryIsFoldable | crates/schema-registry/src/kafkastore/reader.rs:382-431 | the registry store meets what the reader loop needs: equal views stay equal under every record, inheritance and redelivery |
| RegistryReader.DeliveredShowsTopicIff | crates/schema-registry/src/kafkastore/reader.rs:585-617 | what was delivered shows the registry of the whole topic below an offset exactly when of every version, mode and level the last delivered record says what the last record says |
| RegistryReader.SupersededRecordIsMissed | crates/schema-registry/src/kafkastore/reader.rs:330-355 | a cleaner takes away a record superseded beyond the end of a running replay: up to there what was delivered shows no global mode where the topic sets one, one record later the two show the same |
| RegistryReader.PublishTooEarly | crates/schema-registry/src/kafkastore/reader.rs:585-648 | the reader itself: reserve a token, start a replay, lose the first record to the cleaner, fetch up to the end, poll: Seen, from a live store without the mode that was set before the token |
| RegistryReader.CompactedFeedIsFaithful | crates/schema-registry/src/kafkastore/reader.rs:631-648 | a topic compacted below an offset, with its global level kept, shows from that offset on what the whole topic shows |
| RegistryReader.CompactedStoreShowsTopic | crates/schema-registry/src/kafkastore/mod.rs:793-827 | there a barrier that is seen has every record visible before it in the live store |
| Matching.Augment | crates/schema-registry/src/format/json/diff.rs:786-804 | a successful search moves partners along newly visited vertices and uses up one free vertex; a failed one changes no partner and leaves a closed visited set |
| Matching.MaximumMatching | crates/schema-registry/src/format/json/diff.rs:785-820 | ends, and returns the size of a maximum bipartite matching |
| Matching.CountCoversShorter | crates/schema-registry/src/format/json/diff.rs:831-837 | the count falls short of the smaller side exactly when no injective pairing covers it |
| JsonEngine.CompareSchema | crates/schema-registry/src/format/json/diff.rs:182-204 | pushes exactly the differences of the specification onto the list and leaves the cycle guard as it was |
| JsonEngine.BranchCompatible | crates/schema-registry/src/format/json/diff.rs:776-783 | the verdict of a comparison under an empty cycle guard |
| JsonEngine.PushBranches | crates/schema-registry/src/format/json/diff.rs:830-842 | reports changed subschemas exactly when no pairing of compatible branches covers the shorter list, else a longer or shorter list |
| JsonEngine.PushCombinators | crates/schema-registry/src/format/json/diff.rs:822-913 | the reports for allOf, anyOf or oneOf, and not, in order, with the branches of not exchanged |
| JsonEngine.Check | crates/schema-registry/src/format/json/mod.rs:61-85 | the verdict and the incompatible differences; in the fragment a positive verdict means that every instance of the writer is one of the reader, by the meaning of all keywords of section 6 of JSON Schema Validation draft-07; without subschemas it is positive exactly when each keyword of the reader is implied by the same keyword of the writer, but for four stated refusals |
| JsonVerdict.VerdictIff | crates/schema-registry/src/format/json/diff.rs:182-994 | a comparison without references at its tops is positive exactly when every keyword reads, each in closed form over the verdicts on the subschemas and, under an empty guard, on the branches |
| JsonVerdict.PlainVerdictIff | crates/schema-registry/src/format/json/compat.rs:8-104 | for schemas without subschemas the verdict is positive exactly when every instance that meets the type, enum, const, a bound, multipleOf, pattern or uniqueItems of the writer meets that keyword of the reader, and none of four stated refusals applies |
| JsonExact.NumberBoundIff | crates/schema-registry/src/format/json/compat.rs:43-66 | for a bound on numbers implied means that every instance within the old bound is within the new one |
| JsonExact.CountBoundIff | crates/schema-registry/src/format/json/compat.rs:43-66 | for a bound on lengths and counts the same, except that a new lower bound of 0 is refused |
| JsonExact.MultipleIff | crates/schema-registry/src/format/json/compat.rs:8-104 | multipleOf is accepted exactly when it is implied by the old one |
| JsonExact.TypeIff | crates/schema-registry/src/format/json/compat.rs:8-104 | type is accepted exactly when every old type is a new one, but for types where there were none and integers that become numbers beside other types |
| JsonExact.EnumImpliedIff | crates/schema-registry/src/format/json/compat.rs:8-104 | enum and const are accepted exactly when every old value is a new one, numbers compared as they are written |
| JsonVerdict.PropertiesIff | crates/schema-registry/src/format/json/diff.rs:293-393 | properties read exactly when each shared one does, each added one reads what the open or closed old schema lets through, and each dropped one is read by what governs it |
| JsonVerdict.CombinatorsIff | crates/schema-registry/src/format/json/diff.rs:822-913 | the reports of allOf, sum and not are all compatible exactly when the lists are equal or a pairing covers the branches that must be read, an added sum has a branch that reads, and the negations are equal or read with sides exchanged; in closed form over the verdicts on branch pairs |
| JsonSoundness.VerdictIsSound | crates/schema-registry/src/format/json/mod.rs:61-85 | a positive verdict on two schemas of the fragment means that every instance of the old schema is one of the new, through properties, allOf, anyOf and contravariant not; instances meet every keyword of section 6 of draft-07 |
| JsonSoundness.CombinatorsSound | crates/schema-registry/src/format/json/diff.rs:822-913 | allOf and anyOf carry over branch by branch along the pairing, not contravariantly |
| JsonSoundness.MembersSound | crates/schema-registry/src/format/json/diff.rs:293-446 | when properties, required and additionalProperties report nothing incompatible, required and closed member sets only loosen |
| JsonSoundness.FlatSound | crates/schema-registry/src/format/json/compat.rs:8-104 | when the keywords without subschemas report nothing incompatible, type, enum, const, bounds, multipleOf, pattern, uniqueItems and member sets all carry over |
| JsonKeywords.OnlyComparedMatter | crates/schema-registry/src/format/json/diff.rs:182-204 | schemas that agree on the 31 compared keywords are compared alike: no other keyword, contains and propertyNames among them, changes the result |
| JsonLimits.ContainsIsMissed | crates/schema-registry/src/format/json/diff.rs:644-734 | adding contains is accepted, and the empty array is lost |
| JsonLimits.PropertyNamesAreMissed | crates/schema-registry/src/format/json/diff.rs:293-446 | adding propertyNames is accepted, and an object with a member is lost |
| JsonLimits.AddedItemsAreMissed | crates/schema-registry/src/format/json/diff.rs:651-671 | adding items to a schema without is accepted, and an array is lost |
| JsonLimits.RequirementsAcceptedIff | crates/schema-registry/src/format/json/diff.rs:395-419 | new requirements are accepted exactly when each has a default or concerns a property that one of the schemas does not declare |
| JsonLimits.DefaultedRequirementIsMissed | crates/schema-registry/src/format/json/diff.rs:395-419 | a newly required property with a default passes the check although an old instance without it is no new instance |
| JsonLimits.EqualBranchesAreSkipped | crates/schema-registry/src/format/json/diff.rs:829-913 | equal branch lists and equal negations are skipped, whatever their comparison would say |
| JsonLimits.DefinitionsBehindAreMissed | crates/schema-registry/src/format/json/diff.rs:829-845 | equal allOf lists with a reference pass the check although the definitions behind them are incompatible |
| JsonLimits.NegatedReferencesSwap | crates/schema-registry/src/format/json/diff.rs:898-908 | the reference of the new negation is looked up in the old document and that of the old one in the new |
| JsonReferences.NoCrossingCycleEnds | crates/schema-registry/src/format/json/diff.rs:937-994 | the comparison ends for all documents and registry references, recursive ones included, when no chain of references returns to its start through a combinator |
| JsonReferences.LevelsIffNoCrossingCycle | crates/schema-registry/src/format/json/diff.rs:924-935 | that is so exactly when the reference texts have levels that never rise from a text to what its target holds and fall below a combinator |
| JsonReferences.PlainRecursionEnds | crates/schema-registry/src/format/json/diff.rs:937-994 | documents without references below combinators are compared to the end, however recursive |
| JsonReferences.TreesEnd | crates/schema-registry/src/format/json/diff.rs:769-913 | two recursive documents whose anyOf lists differ and refer to a recursive definition: the comparison ends |
| JsonPointers.PointerRoundTrip | crates/schema-registry/src/format/json/diff.rs:924-935 | the pointer written for a place of a document, by names with any characters and by indices, leads back to it |
| JsonPointers.PointerIsPlace | crates/schema-registry/src/format/json/diff.rs:924-935 | a pointer leads nowhere but to a place of the document |
| JsonPointers.ReferencesAreFollowed | crates/schema-registry/src/format/json/diff.rs:937-994 | comparing schemas with references is comparing what each reference means, a place of its own document or the first registry reference of its name, once around a cycle |
| JsonTermination.MoreFuel | crates/schema-registry/src/format/json/diff.rs:182-204 | a comparison that ends has one result, however much recursion is allowed |
| JsonTermination.ReferenceFreeEnds | crates/schema-registry/src/format/json/diff.rs:182-204 | documents without references are always compared to the end |
| JsonDivergence.StuckNeverEnds | crates/schema-registry/src/format/json/diff.rs:769-994 | pairs of schemas, with the guard they are compared under, of which each needs another one (behind an unguarded reference, as a subschema, or as a branch of allOf, sum or not under an empty guard, a one-sided sum only up to its deciding branch) are never compared to the end |
| JsonDivergence.NeverEndsIff | crates/schema-registry/src/format/json/diff.rs:769-994 | the comparison never ends exactly when it is among such pairs, for all documents, registry references and guards |
| JsonDivergence.SelfBranchNeverEnds | crates/schema-registry/src/format/json/diff.rs:776-783 | two documents that both have their own root as a branch of one combinator, in lists that differ at all, are never compared to the end |
| JsonDivergence.CombinatorCycleNeverEnds | crates/schema-registry/src/format/json/diff.rs:776-783 | two such documents |
| JsonDivergence.LinkedListNeverEnds | crates/schema-registry/src/format/json/diff.rs:776-783 | a recursive linked list whose anyOf gains an alternative: the comparison never ends although the reference sits at a guarded property |
| JsonDivergence.DroppedCycleNeverEnds | crates/schema-registry/src/format/json/diff.rs:888-897 | a sum that refers to its own document and is dropped: the comparison never ends |
| Wire.PutVarint | crates/schema-serde/src/wire.rs:102-112 | appends the shortest zigzag encoding of every i64 |
| Wire.Read | crates/schema-serde/src/wire.rs:114-134 | the reading loop is the reading function, with each of its errors |
| Wire.VarintRoundTrip | crates/schema-serde/src/wire.rs:102-134 | reading what was written gives the number back, with whatever follows |
| Wire.ZigZagCounts | crates/schema-serde/src/wire.rs:102-112 | zigzag counts 0, -1, 1, -2, 2 and so on |
| Wire.VarintIsBase128 | crates/schema-serde/src/wire.rs:102-112 | a varint is the number in base 128, least significant digit first, the high bit on every byte but the last |
| Wire.AcceptedIsCanonical | crates/schema-serde/src/wire.rs:114-134 | every accepted input is the encoding of the i64 it gives, followed by the rest |
| Wire.EncodeProtobuf | crates/schema-serde/src/wire.rs:28-44 | the frame is magic byte, big-endian id, message index and body |
| Wire.DecodeProtobuf | crates/schema-serde/src/wire.rs:56-83 | the decoding loop is the decoding function, with each of its errors |
| Wire.FrameRoundTrip | crates/schema-serde/src/wire.rs:28-83 | decoding inverts encoding for every non-empty message index |
| Wire.FrameLayout | crates/schema-serde/src/wire.rs:28-44 | the bytes of a frame: 0, the id most significant byte first, one zero byte for [0] or else the count and the indices as zigzag varints, the body |
| Wire.EmptyIndexIsZero | crates/schema-serde/src/wire.rs:28-44 | the empty message index encodes, and decodes, as [0] |
| Wire.AcceptedFrames | crates/schema-serde/src/wire.rs:56-100 | nothing but an encoded frame is accepted, except the written-out form of [0] |
| DescriptorImport.DescriptorSetImport.Visit | crates/schema-registry/src/rest/import.rs:107-134 | a visit lists the file after all it imports from the set, or has found a cycle; it ends on every set |
| DescriptorImport.DescriptorSetImport.Import | crates/schema-registry/src/rest/import.rs:84-105 | succeeds exactly when names are present, not empty and distinct and imports within the set form no cycle; the order then lists each file once after all it imports |
| Cache.DelaysGrow | crates/schema-serde/src/cache.rs:171-188 | delays never shrink with the attempt count and stay between the two bounds |
| Cache.DelaysDouble | crates/schema-serde/src/cache.rs:171-188 | the delay before capping doubles with each attempt from the first to the eighth and then stays |
| Cache.DelayIsCapped | crates/schema-serde/src/cache.rs:171-188 | a delay is that one capped at the maximum, or up to a quarter more, never beyond the maximum |
| Cache.SchemaCache.WriterSchemaWithReferences | crates/schema-serde/src/cache.rs:422-482 | served, unavailable or pending, and whether this read spawns a fetch |
| Cache.SchemaCache.CompleteFetch | crates/schema-serde/src/cache.rs:445-478 | what a fetch means to later reads of its id: a resolved one serves it for good, a transient one lets no read fetch again before the delay is over and every one after, a terminal one ends fetching and answers with its reason unless a schema is there; other ids answer and fetch as before |
| Cache.SchemaCache.Seed | crates/schema-serde/src/cache.rs:518-540 | from then on reads of the id answer with the schema and fetch nothing, whatever failed before; a fetch in flight and all other ids are as before |
| Cache.SchemaCache.Prewarm | crates/schema-serde/src/cache.rs:373-378 | from then on reads of the id answer with the schema and fetch nothing; all other ids are as before |
| Cache.ReadsAnswerTheEvents | crates/schema-serde/src/cache.rs:373-540 | in every interleaving a read answers with the last schema that a seed, a prewarm or a fetch put under the id, and without one with the failure that ended its fetch |
| Cache.OneFetchEach | crates/schema-serde/src/cache.rs:422-482 | in every interleaving an id has exactly one fetch outstanding when it is being fetched and none otherwise |
| Cache.ServedStaysServed | crates/schema-serde/src/cache.rs:422-540 | once a read of an id is served, every later read is |
| Cache.TerminalNeverRefetched | crates/schema-serde/src/cache.rs:471-475 | once the fetch of an id has failed for good, no read fetches it again |

## Left out

- Protocol: the asynchronous methods of the store and the writer are steps of a transition system rather than methods of a class, because other nodes may act at each of their await points.
- WriteProgress.WriteCompletes: the steps are of one node while the others pause; that a write ends among steps of others, and fairness, are not part of this model.
- Acceptance.AcceptedIff: takes a request that appends nothing as refused; which error it answers, and the values that successful requests return besides a registration's id and version, are not part of this model.
- JsonVerdict.PlainVerdictIff: with subschemas `JsonVerdict.VerdictIff` gives the closed form over their verdicts, not over instances; patterns are not looked into.
- Allocation.IdsAreDense: claims nothing of logs with IMPORT registrations, which choose their ids, or of compacted ones.
- Reader: inside the write protocol a fetch always carries its cursor and the log is not compacted or recreated; `ReaderLoop` covers redelivery, compacted replays and recreated topics for one reader.
- Reader.ResetKeepsInv: inside the write protocol a replay reads the whole log; `ReaderLoop.StoreReader.OnReset` replays what a cleaner leaves.
- ReaderLoop.StoreReader.OnFetch: a redelivery after a response without a cursor repeats the same records and reaches at least as far; when the client library leaves the cursor out is not part of this model.
- Election: two nodes that advertise one identity would both become primary for a generation; the protocol takes each generation to have at most one primary.
- Store: unknown fields of SCHEMA values, and mode and level strings outside the known ones, are not modelled.
- VersionNumbers.FreshVersionIsNew: claims nothing at i32::MAX, where `VersionNumbers.LargestIsReused` holds instead, and nothing across a recreated topic.
- Compaction.CompactionKeepsView: the dedup index, the stored texts and the id high water are not part of the view; the code does not restore them either after compaction.
- Compaction.RedeliveryKeepsView: the same parts are outside the view.
- History.LiveVersionsAreCompatible: takes the check as a relation on canonical forms, and canonical forms as free of U+0000; the dedup key does not contain the type, so registrations elsewhere must not take the canonical form of a stored schema of the subject's type under another type.
- EveryRun.CommittedHistory: the same.
- References.ReferencesIntact: without the condition on registrations a live version may refer to a soft-deleted one, as the code allows.
- JsonDiff: paths and messages of differences, and the EPSILON with which the code compares doubles; bounds and multipleOf are compared exactly.
- JsonSoundness.VerdictIsSound: `$ref`, default, patternProperties, propertyNames, oneOf, dependencies, if/then/else, items, contains, additionalProperties other than false, undeclared required names, and enum beside const are outside the fragment. The code is wrong there on contains, propertyNames, added items, requirements with a default and references in equal branch lists (`JsonLimits`).
- JsonMeaning: `$ref` has no meaning; the length of a text is its number of characters.
- JsonReferences.NoCrossingCycleEnds: a property that is named like a combinator counts as one; `JsonDivergence.NeverEndsIff` is exact.
- JsonReferences.PlainRecursionEnds: the same.
- Canonical.CanonicalIsIdentity: the model has one zero; the code prints -0.0 and 0.0 apart although serde_json compares them equal.
- Canonical: how doubles print, and parsing of JSON text.
- Resolver: the fetches of the client answer from the catalogue that the server's walk reads.
- Cache: subject ids, message types, interned schemas and the lookups of prewarming; backoff is computed on exact numbers.
- Wire: the frame of formats without a message index, which is the header and the body alone.
- Operations: request validation of the REST layer, and the direct write path used when no election is installed.
- Records are decoded: the bytes of keys and values, and the counting of unknown and undecodable records, which the fold ignores like NOOP.
- Sockets, TLS, HTTP handlers, configuration, authentication, telemetry, topic creation, and the Avro and Protobuf compatibility engines.

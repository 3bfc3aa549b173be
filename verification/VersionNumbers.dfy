/** Version numbers are never reused, under crashes between any two appends, and restarts and
    compactions at any point of any store's replay. */
module VersionNumbers {
  import opened Wrappers
  import opened Identity
  import opened Store
  import opened StoreInvariant
  import opened Replay
  import opened Operations
  import opened RegistryRuns
  import opened Compaction

  /** A store that is being filled, and the offset below which it was delivered what a cleaner left. */
  datatype Node = Node(store: State, at: nat)

  /** Everything ever committed, what of it a cleaner has left, and the nodes. */
  datatype System = System(log: seq<Record>, alive: Filter, nodes: seq<Node>)

  datatype Event =
    | Commit(node: nat, request: Request, count: nat)   // a crash leaves a prefix of the plan
    | Compact(keep: Filter)
    | Deliver(node: nat, start: nat, end: nat)          // records may be delivered again
    | Restart(node: nat, floor: int)                    // the fresh store may inherit an id high water

  function Committed(records: seq<Record>): set<SchemaKey> {
    set r <- records | r.SchemaRecord? :: r.key
  }

  /** What a cleaner has left in [start, end). */
  function Surviving(log: seq<Record>, alive: Filter, start: nat, end: nat): seq<Record>
    requires end <= |log|
    decreases end
  {
    if end <= start then []
    else Surviving(log, alive, start, end - 1) + if alive(end - 1) then [log[end - 1]] else []
  }

  function Delivered(f: Formats, x: System, node: Node, start: nat, end: nat): Node
    requires end <= |x.log|
  {
    Node(ApplyAll(f, node.store, Surviving(x.log, x.alive, start, end)), end)
  }

  function Emptied(level: Level, mode: Mode, floor: int): Node {
    var s := WithDefaults(level, mode);
    Node(s.(maxId := Max(s.maxId, floor)), 0)
  }

  // A node plans when it was delivered everything committed: its barrier came back.
  ghost predicate Happens(f: Formats, level: Level, mode: Mode, x: System, e: Event, y: System) {
    match e
    case Commit(n, q, k) =>
      && n < |x.nodes| && x.nodes[n].at == |x.log| && k <= |Plan(f, q, [x.nodes[n].store])|
      && y == x.(log := x.log + Plan(f, q, [x.nodes[n].store])[..k])
    case Compact(keep) =>
      && Compacts(x.log, keep) && y == x.(alive := keep)
      && forall i: nat :: (keep(i) ==> x.alive(i)) && (i >= |x.log| ==> keep(i))
    case Deliver(n, start, end) =>
      && n < |x.nodes| && start <= x.nodes[n].at <= end <= |x.log|
      && y == x.(nodes := x.nodes[n := Delivered(f, x, x.nodes[n], start, end)])
    case Restart(n, floor) => n < |x.nodes| && y == x.(nodes := x.nodes[n := Emptied(level, mode, floor)])
  }

  ghost predicate IsHistory(f: Formats, level: Level, mode: Mode, history: seq<System>, events: seq<Event>) {
    && |history| == |events| + 1 && history[0].log == [] && history[0].alive == ALL
    && (forall n :: 0 <= n < |history[0].nodes| ==> history[0].nodes[n] == Node(WithDefaults(level, mode), 0))
    && forall i :: 0 <= i < |events| ==> Happens(f, level, mode, history[i], events[i], history[i + 1])
  }

  // ------------------------------------------------------------------
  // What guards a version number
  // ------------------------------------------------------------------

  /** The last record with this key. */
  function Newest(log: seq<Record>, key: Key): Option<Record> {
    if log == [] then None
    else if RecordKey(log[|log| - 1]) == key then Some(log[|log| - 1])
    else Newest(log[..|log| - 1], key)
  }

  lemma {:induction false} NewestKept(log: seq<Record>, keep: Filter, key: Key)
    ensures var p := Last(log, keep, key);
            -1 <= p < |log| && Newest(Kept(log, keep), key) == if p < 0 then None else Some(log[p])
  {
    LastIs(log, keep, key);
    if log != [] {
      var front := log[..|log| - 1];
      NewestKept(front, keep, key);
      if keep(|log| - 1) {
        assert Kept(log, keep)[..|Kept(log, keep)| - 1] == Kept(front, keep);
      }
    }
  }

  lemma NewestAppended(log: seq<Record>, r: Record, key: Key)
    ensures Newest(log + [r], key) == if RecordKey(r) == key then Some(r) else Newest(log, key)
  {
    assert (log + [r])[..|log|] == log;
  }

  // The last high-water record of the subject is above the version.
  ghost predicate HighEnough(log: seq<Record>, k: SchemaKey) {
    var high := Newest(log, NextKey(k.subject));
    high.Some? && high.value.HighWater? && SaturatingNext(k.version) <= high.value.next
  }

  ghost predicate Guarded(log: seq<Record>, k: SchemaKey) {
    HighEnough(log, k) || (Newest(log, VersionKey(k)).Some? && Newest(log, VersionKey(k)).value.SchemaRecord?)
  }

  ghost predicate Above(s: State, k: SchemaKey) {
    k.subject in s.nextVersions && SaturatingNext(k.version) <= s.nextVersions[k.subject]
  }

  ghost predicate StoreOk(f: Formats, s: State, committed: set<SchemaKey>) {
    WF(f, s) && forall k <- committed :: Above(s, k)
  }

  ghost predicate LogOk(log: seq<Record>, committed: set<SchemaKey>) {
    (forall r <- log :: Encoded(r)) && forall k <- committed :: Guarded(log, k)
  }

  // What a guard makes of a store that takes it in.
  ghost predicate Took(s: State, r: Record) {
    && (r.SchemaRecord? ==> Above(s, r.key))
    && (r.HighWater? ==> r.subject in s.nextVersions && r.next <= s.nextVersions[r.subject])
  }

  ghost predicate IsLast(log: seq<Record>, p: nat) { p < |log| && Last(log, ALL, RecordKey(log[p])) == p }

  /** The store took in the last record of every key below its offset. */
  ghost predicate NodeOk(f: Formats, log: seq<Record>, node: Node) {
    WF(f, node.store) && node.at <= |log| && forall p: nat :: p < node.at && IsLast(log, p) ==> Took(node.store, log[p])
  }

  ghost predicate SystemOk(f: Formats, x: System) {
    && LogOk(x.log, Committed(x.log)) && Compacts(x.log, x.alive) && (forall i: nat :: |x.log| <= i ==> x.alive(i))
    && forall n :: 0 <= n < |x.nodes| ==> NodeOk(f, x.log, x.nodes[n])
  }

  // ------------------------------------------------------------------
  // Compaction and restart
  // ------------------------------------------------------------------

  lemma CompactionKeepsGuards(log: seq<Record>, keep: Filter, k: SchemaKey)
    requires Compacts(log, keep) && Guarded(log, k)
    ensures Guarded(Kept(log, keep), k)
  {
    KeptAll(log);
    NewestKept(log, keep, NextKey(k.subject));
    NewestKept(log, ALL, NextKey(k.subject));
    NewestKept(log, keep, VersionKey(k));
    NewestKept(log, ALL, VersionKey(k));
  }

  lemma {:induction false} KeptMembers(log: seq<Record>, keep: Filter)
    ensures forall r <- Kept(log, keep) :: r in log
  {
    if log != [] {
      KeptMembers(log[..|log| - 1], keep);
    }
  }

  lemma SettingsKeepNext(f: Formats, s: State, r: Record)
    requires r.ModeRecord? || r.ConfigRecord? || r.Noop?
    ensures Apply(f, s, r).nextVersions == s.nextVersions
  {
    hide ApplySchema, PermanentDelete, SoftDeleteSubject, ObserveNext;
  }

  lemma AppliedNext(f: Formats, s: State, r: Record)
    requires WF(f, s)
    ensures forall x <- s.nextVersions ::
          x in Apply(f, s, r).nextVersions && s.nextVersions[x] <= Apply(f, s, r).nextVersions[x]
    ensures r.SchemaRecord? && Encoded(r) ==> Above(Apply(f, s, r), r.key)
    ensures r.HighWater? ==>
          r.subject in Apply(f, s, r).nextVersions && r.next <= Apply(f, s, r).nextVersions[r.subject]
  {
    match r {
      case SchemaRecord(_, v) =>
        hide WF, ApplySchema;
        ApplySchemaEntries(f, s, v);
      case Tombstone(_) => hide WF;
      case DeleteSubject(_, _) => hide WF;
      case HighWater(_, _) => hide WF;
      case _ =>
        hide WF, Apply;
        SettingsKeepNext(f, s, r);
    }
  }

  lemma {:induction false} NewestMember(log: seq<Record>, key: Key)
    ensures Newest(log, key).Some? ==> Newest(log, key).value in log && RecordKey(Newest(log, key).value) == key
  {
    if log != [] {
      NewestMember(log[..|log| - 1], key);
    }
  }

  lemma {:induction false} ReplayedAbove(f: Formats, level: Level, mode: Mode, log: seq<Record>, r: Record,
          k: SchemaKey)
    requires r in log && Encoded(r)
    requires || (r.SchemaRecord? && r.key == k)
             || (r.HighWater? && r.subject == k.subject && SaturatingNext(k.version) <= r.next)
    ensures Above(Replayed(f, level, mode, log), k)
  {
    var front, last := log[..|log| - 1], log[|log| - 1];
    assert log == front + [last];
    ReplayedKeeps(f, level, mode, front);
    ReplayedOne(f, level, mode, front, last);
    AppliedNext(f, Replayed(f, level, mode, front), last);
    if r in front {
      ReplayedAbove(f, level, mode, front, r, k);
    }
  }

  /** A replay of any compaction of the log is above every committed version. */
  lemma ReplayIsAbove(f: Formats, level: Level, mode: Mode, log: seq<Record>, keep: Filter, committed: set<SchemaKey>)
    requires LogOk(log, committed) && Compacts(log, keep)
    ensures StoreOk(f, Replayed(f, level, mode, Kept(log, keep)), committed)
  {
    var kept := Kept(log, keep);
    ReplayedKeeps(f, level, mode, kept);
    KeptMembers(log, keep);
    forall k <- committed ensures Above(Replayed(f, level, mode, kept), k) {
      CompactionKeepsGuards(log, keep, k);
      var key := if HighEnough(kept, k) then NextKey(k.subject) else VersionKey(k);
      NewestMember(kept, key);
      ReplayedAbove(f, level, mode, kept, Newest(kept, key).value, k);
    }
  }

  // ------------------------------------------------------------------
  // Delivery
  // ------------------------------------------------------------------

  lemma LastSurvives(log: seq<Record>, alive: Filter, p: nat)
    requires Compacts(log, alive) && IsLast(log, p) && (log[p].SchemaRecord? || log[p].HighWater?)
    ensures alive(p)
  {
    LastIs(log, alive, RecordKey(log[p]));
  }

  lemma TookStays(f: Formats, s: State, r: Record, taken: Record)
    requires WF(f, s) && Took(s, taken)
    ensures Took(Apply(f, s, r), taken)
  {
    hide WF, Apply;
    AppliedNext(f, s, r);
  }

  lemma TakesIn(f: Formats, s: State, r: Record)
    requires WF(f, s) && Encoded(r)
    ensures Took(Apply(f, s, r), r)
  {
    hide WF, Apply;
    AppliedNext(f, s, r);
  }

  lemma AppliedOne(f: Formats, s: State, records: seq<Record>, r: Record)
    ensures ApplyAll(f, s, records + [r]) == Apply(f, ApplyAll(f, s, records), r)
  {
    hide Apply;
    assert (records + [r])[..|records|] == records;
  }

  lemma {:induction false} DeliveryTakesIn(f: Formats, log: seq<Record>, alive: Filter, node: Node, start: nat,
          end: nat)
    requires NodeOk(f, log, node) && Compacts(log, alive) && start <= node.at && end <= |log|
    requires forall r <- log :: Encoded(r)
    ensures var s := ApplyAll(f, node.store, Surviving(log, alive, start, end));
            WF(f, s) && forall p: nat :: p < Max(node.at, end) && IsLast(log, p) ==> Took(s, log[p])
    decreases end
  {
    hide WF, Apply, Compacts, Took, IsLast;
    if end > start {
      DeliveryTakesIn(f, log, alive, node, start, end - 1);
      var s, r := ApplyAll(f, node.store, Surviving(log, alive, start, end - 1)), log[end - 1];
      var t := ApplyAll(f, node.store, Surviving(log, alive, start, end));
      AppliedOne(f, node.store, Surviving(log, alive, start, end - 1), r);
      if alive(end - 1) {
        ApplyKeeps(f, s, r);
        TakesIn(f, s, r);
      } else {
        assert Surviving(log, alive, start, end - 1) + [] == Surviving(log, alive, start, end - 1);
      }
      forall p: nat | p < Max(node.at, end) && IsLast(log, p) ensures Took(t, log[p]) {
        LastTaken(f, log, alive, s, t, p, end - 1);
      }
    }
  }

  lemma LastTaken(f: Formats, log: seq<Record>, alive: Filter, s: State, t: State, p: nat, i: nat)
    requires WF(f, s) && Compacts(log, alive) && p < |log| && i < |log| && IsLast(log, p)
    requires t == if alive(i) then Apply(f, s, log[i]) else s
    requires if p == i && alive(i) then Took(t, log[i]) else p == i || Took(s, log[p])
    ensures Took(t, log[p])
  {
    hide WF, Apply, Compacts, IsLast;
    if p == i {
      if !alive(i) && (log[p].SchemaRecord? || log[p].HighWater?) { LastSurvives(log, alive, p); }
    } else if alive(i) {
      TookStays(f, s, log[i], log[p]);
    }
  }

  // The last record of a key that has one.
  lemma NewestIsLast(log: seq<Record>, key: Key)
    requires Newest(log, key).Some?
    ensures var p := Last(log, ALL, key); 0 <= p < |log| && IsLast(log, p) && Newest(log, key) == Some(log[p])
  {
    NewestKept(log, ALL, key);
    KeptAll(log);
    LastIs(log, ALL, key);
  }

  lemma GuardIsTaken(log: seq<Record>, s: State, k: SchemaKey)
    requires Guarded(log, k) && forall p: nat :: IsLast(log, p) ==> Took(s, log[p])
    ensures Above(s, k)
  {
    hide IsLast, Newest;
    var key := if HighEnough(log, k) then NextKey(k.subject) else VersionKey(k);
    NewestIsLast(log, key);
    NewestMember(log, key);
  }

  /** A store that was delivered everything committed, however compacted meanwhile, is above all of it. */
  lemma CaughtUpIsAbove(f: Formats, log: seq<Record>, node: Node)
    requires LogOk(log, Committed(log)) && NodeOk(f, log, node) && node.at == |log|
    ensures StoreOk(f, node.store, Committed(log))
  {
    hide WF, Guarded, Took, Above;
    forall k <- Committed(log) ensures Above(node.store, k) { GuardIsTaken(log, node.store, k); }
  }

  // ------------------------------------------------------------------
  // Appending
  // ------------------------------------------------------------------

  // The high-water record comes first and is high enough; a tombstone only follows one.
  ghost predicate Safe(log: seq<Record>, committed: set<SchemaKey>, r: Record) {
    && Encoded(r)
    && (r.HighWater? ==> forall k <- committed :: k.subject == r.subject ==> SaturatingNext(k.version) <= r.next)
    && (r.Tombstone? && r.key in committed ==> HighEnough(log, r.key))
  }

  lemma OneRecordKeeps(log: seq<Record>, committed: set<SchemaKey>, r: Record)
    requires LogOk(log, committed) && Safe(log, committed, r)
    ensures LogOk(log + [r], committed + Committed([r]))
  {
    forall k <- committed + Committed([r])
      ensures Guarded(log + [r], k)
    {
      NewestAppended(log, r, NextKey(k.subject));
      NewestAppended(log, r, VersionKey(k));
    }
  }

  // A plan whose records are safe one after the other.
  ghost predicate SafePlan(log: seq<Record>, committed: set<SchemaKey>, plan: seq<Record>) {
    forall i :: 0 <= i < |plan| ==> Safe(log + plan[..i], committed + Committed(plan[..i]), plan[i])
  }

  lemma SafeAt(log: seq<Record>, committed: set<SchemaKey>, plan: seq<Record>, i: nat)
    requires SafePlan(log, committed, plan) && i < |plan|
    ensures Safe(log + plan[..i], committed + Committed(plan[..i]), plan[i])
  {}

  lemma {:induction false} AppendedLogKeeps(log: seq<Record>, committed: set<SchemaKey>, plan: seq<Record>, k: nat)
    requires LogOk(log, committed) && SafePlan(log, committed, plan) && k <= |plan|
    ensures LogOk(log + plan[..k], committed + Committed(plan[..k]))
  {
    if k == 0 {
      assert log + plan[..0] == log && committed + Committed(plan[..0]) == committed;
    } else {
      hide LogOk, Safe, Committed, SafePlan;
      AppendedLogKeeps(log, committed, plan, k - 1);
      SafeAt(log, committed, plan, k - 1);
      OneRecordKeeps(log + plan[..k - 1], committed + Committed(plan[..k - 1]), plan[k - 1]);
      assert log + plan[..k - 1] + [plan[k - 1]] == log + plan[..k] && plan[..k] == plan[..k - 1] + [plan[k - 1]];
      CommittedMore(plan[..k - 1], plan[k - 1]);
      assert committed + Committed(plan[..k - 1]) + Committed([plan[k - 1]]) == committed + Committed(plan[..k]);
    }
  }

  lemma CommittedMore(records: seq<Record>, r: Record)
    ensures Committed(records + [r]) == Committed(records) + Committed([r])
  {}

  // ------------------------------------------------------------------
  // Every plan is safe
  // ------------------------------------------------------------------

  lemma NextIsAbove(f: Formats, s: State, committed: set<SchemaKey>, k: SchemaKey)
    requires StoreOk(f, s, committed) && k in committed
    ensures SaturatingNext(k.version) <= NextVersion(s, k.subject)
  {
    assert Above(s, k);
  }

  lemma {:induction false} HighStays(log: seq<Record>, more: seq<Record>, k: SchemaKey)
    requires HighEnough(log, k) && forall r <- more :: !r.HighWater?
    ensures HighEnough(log + more, k)
  {
    if more == [] {
      assert log + more == log;
    } else {
      HighStays(log, more[..|more| - 1], k);
      NewestAppended(log + more[..|more| - 1], more[|more| - 1], NextKey(k.subject));
      assert log + more[..|more| - 1] + [more[|more| - 1]] == log + more;
    }
  }

  // A high-water record followed by tombstones of its subject and cleared settings.
  ghost predicate IsRemoval(plan: seq<Record>, subject: string) {
    && plan != [] && plan[0].HighWater? && plan[0].subject == subject
    && forall i :: 0 < i < |plan| ==>
         || (plan[i].Tombstone? && plan[i].key.subject == subject)
         || plan[i] == ConfigRecord(Some(subject), None) || plan[i] == ModeRecord(Some(subject), None)
  }

  lemma RemovalIsSafe(f: Formats, s: State, log: seq<Record>, committed: set<SchemaKey>, plan: seq<Record>,
          subject: string)
    requires StoreOk(f, s, committed) && IsRemoval(plan, subject) && plan[0].next == NextVersion(s, subject)
    ensures SafePlan(log, committed, plan)
  {
    forall i | 0 <= i < |plan|
      ensures Safe(log + plan[..i], committed + Committed(plan[..i]), plan[i])
    {
      assert Committed(plan[..i]) == {};
      forall k | k in committed && k.subject == subject ensures SaturatingNext(k.version) <= plan[0].next {
        NextIsAbove(f, s, committed, k);
      }
      if plan[i].Tombstone? && plan[i].key in committed {
        NewestAppended(log, plan[0], NextKey(subject));
        HighStays(log + [plan[0]], plan[1..i], plan[i].key);
        assert log + [plan[0]] + plan[1..i] == log + plan[..i];
      }
    }
  }

  lemma SingleIsSafe(log: seq<Record>, committed: set<SchemaKey>, plan: seq<Record>)
    requires |plan| <= 1 && forall r <- plan :: Encoded(r) && !r.HighWater? && !r.Tombstone?
    ensures SafePlan(log, committed, plan)
  {}

  lemma PlanIsSafe(f: Formats, s: State, log: seq<Record>, committed: set<SchemaKey>, q: Request)
    requires StoreOk(f, s, committed)
    ensures SafePlan(log, committed, Plan(f, q, [s]))
  {
    var plan := Plan(f, q, [s]);
    if q.PermanentDeleteVersion? || q.PermanentDeleteAll? {
      if plan != [] { RemovalIsSafe(f, s, log, committed, plan, q.subject); }
    } else {
      SingleIsSafe(log, committed, plan);
    }
  }

  // ------------------------------------------------------------------
  // Every history
  // ------------------------------------------------------------------

  lemma CompactsMore(log: seq<Record>, more: seq<Record>, keep: Filter)
    requires Compacts(log, keep) && forall i: nat :: |log| <= i ==> keep(i)
    ensures Compacts(log + more, keep)
  {
    assert (log + more)[..|log|] == log;
    CompactsOn(log + more, |log|, keep);
  }

  lemma LastBefore(log: seq<Record>, more: seq<Record>, p: nat)
    requires p < |log| && IsLast(log + more, p)
    ensures IsLast(log, p)
  {
    LastIs(log + more, ALL, RecordKey(log[p]));
    forall i: nat | p < i < |log| ensures RecordKey(log[i]) != RecordKey(log[p]) {
      assert (log + more)[i] == log[i] && ALL(i);
    }
    LastUnique(log, RecordKey(log[p]), p);
  }

  lemma NodeKeeps(f: Formats, log: seq<Record>, more: seq<Record>, node: Node)
    requires NodeOk(f, log, node)
    ensures NodeOk(f, log + more, node)
  {
    hide WF, Took, IsLast;
    forall p: nat | p < node.at && IsLast(log + more, p) ensures Took(node.store, (log + more)[p]) {
      LastBefore(log, more, p);
      assert (log + more)[p] == log[p];
    }
  }

  lemma CommittedConcat(a: seq<Record>, b: seq<Record>)
    ensures Committed(a + b) == Committed(a) + Committed(b)
  {
    forall k <- Committed(a) + Committed(b) ensures k in Committed(a + b) {
      var r :| (r in a || r in b) && r.SchemaRecord? && r.key == k;
      assert r in a + b;
    }
  }

  lemma CommitKeeps(f: Formats, x: System, n: nat, q: Request, k: nat)
    requires SystemOk(f, x) && n < |x.nodes| && x.nodes[n].at == |x.log| && k <= |Plan(f, q, [x.nodes[n].store])|
    ensures SystemOk(f, x.(log := x.log + Plan(f, q, [x.nodes[n].store])[..k]))
  {
    hide Plan, Compacts, NodeOk, LogOk, StoreOk, SafePlan, Committed;
    var plan := Plan(f, q, [x.nodes[n].store]);
    CaughtUpIsAbove(f, x.log, x.nodes[n]);
    PlanIsSafe(f, x.nodes[n].store, x.log, Committed(x.log), q);
    AppendedLogKeeps(x.log, Committed(x.log), plan, k);
    CommittedConcat(x.log, plan[..k]);
    CompactsMore(x.log, plan[..k], x.alive);
    forall i | 0 <= i < |x.nodes| ensures NodeOk(f, x.log + plan[..k], x.nodes[i]) {
      NodeKeeps(f, x.log, plan[..k], x.nodes[i]);
    }
  }

  lemma DeliverKeeps(f: Formats, x: System, node: Node, start: nat, end: nat)
    requires LogOk(x.log, Committed(x.log)) && Compacts(x.log, x.alive) && NodeOk(f, x.log, node)
    requires start <= node.at <= end <= |x.log|
    ensures NodeOk(f, x.log, Delivered(f, x, node, start, end))
  {
    hide WF, Compacts, Took, IsLast;
    DeliveryTakesIn(f, x.log, x.alive, node, start, end);
  }

  lemma EmptiedIsOk(f: Formats, level: Level, mode: Mode, log: seq<Record>, floor: int)
    ensures NodeOk(f, log, Emptied(level, mode, floor))
  {}

  /** Every event keeps each committed version guarded in the log, and in each store all that guards below
      the store's offset. */
  lemma EventKeeps(f: Formats, level: Level, mode: Mode, x: System, e: Event, y: System)
    requires SystemOk(f, x) && Happens(f, level, mode, x, e, y)
    ensures SystemOk(f, y)
  {
    hide WF, Plan, Compacts, NodeOk, LogOk, Committed, Delivered, Emptied;
    match e
    case Commit(n, q, k) => CommitKeeps(f, x, n, q, k);
    case Compact(_) =>
    case Deliver(n, start, end) => DeliverKeeps(f, x, x.nodes[n], start, end);
    case Restart(_, floor) => EmptiedIsOk(f, level, mode, x.log, floor);
  }

  lemma StartIsOk(f: Formats, level: Level, mode: Mode, nodes: seq<Node>)
    requires forall n :: 0 <= n < |nodes| ==> nodes[n] == Node(WithDefaults(level, mode), 0)
    ensures SystemOk(f, System([], ALL, nodes))
  {
    forall n | 0 <= n < |nodes| ensures NodeOk(f, [], nodes[n]) { EmptiedIsOk(f, level, mode, [], 0); }
  }

  lemma {:induction false} HistoryKeeps(f: Formats, level: Level, mode: Mode, history: seq<System>, events: seq<Event>,
          i: nat)
    requires IsHistory(f, level, mode, history, events) && i < |history|
    ensures SystemOk(f, history[i])
  {
    hide SystemOk, Happens;
    if i > 0 {
      HistoryKeeps(f, level, mode, history, events, i - 1);
      EventKeeps(f, level, mode, history[i - 1], events[i - 1], history[i]);
    } else {
      StartIsOk(f, level, mode, history[0].nodes);
      assert history[0] == System([], ALL, history[0].nodes);
    }
  }

  /** After its barrier, a node gives a fresh version that is above every version ever committed for its
      subject, below the largest, whatever was compacted while its store was filled. */
  lemma FreshVersionIsNew(f: Formats, level: Level, mode: Mode, history: seq<System>, events: seq<Event>, i: nat,
          n: nat, subject: string, schema: Schema, k: SchemaKey)
    requires IsHistory(f, level, mode, history, events) && i < |history| && n < |history[i].nodes|
    requires history[i].nodes[n].at == |history[i].log|
    requires Register(f, history[i].nodes[n].store, subject, schema).Ok?
    requires FindUnder(history[i].nodes[n].store, subject, KeyOf(f, schema), true).None?
    requires k in Committed(history[i].log) && k.subject == subject && k.version < MAX_VERSION
    ensures k.version < Register(f, history[i].nodes[n].store, subject, schema).value.1.version
  {
    var node := history[i].nodes[n];
    HistoryKeeps(f, level, mode, history, events, i);
    CaughtUpIsAbove(f, history[i].log, node);
    NextIsAbove(f, node.store, Committed(history[i].log), k);
  }

  /** The largest version number is handed out again and again: replaying it does not move the next one. */
  lemma LargestIsReused(f: Formats, s: State, subject: string, schema: Schema, reg: Registered)
    requires WF(f, s) && NextVersion(s, subject) == MAX_VERSION && FindUnder(s, subject, KeyOf(f, schema), true).None?
    requires Register(f, s, subject, schema).Ok? && Register(f, s, subject, schema).value.1 == reg
    ensures reg.version == MAX_VERSION
    ensures NextVersion(ApplySchema(f, s, RecordOf(subject, schema, reg)), subject) == MAX_VERSION
  {
    ApplySchemaEntries(f, s, RecordOf(subject, schema, reg));
  }
}

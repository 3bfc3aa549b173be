/** Every committed record of every run was decided from exactly the records committed before it. */
module SerialDecisions {
  import opened Wrappers
  import opened SchemaLog
  import opened Reader
  import opened Protocol

  ghost function StateAt<S, R, Q>(m: Machine<S, R, Q>, log: Log<S, R, Q>, p: nat): S
    requires p <= |log|
  {
    Fold(m, m.init, Visible(log[..p]))
  }

  /** The transaction at `o` carries on the plan of its write: the visible log up to its write's
      barrier, followed by the plan up to this record, is the visible log up to `o`; and every
      snapshot its write decided from is the fold of the log up to that barrier. */
  ghost predicate SerialAt<S, R, Q>(m: Machine<S, R, Q>, log: Log<S, R, Q>, o: nat) {
    && o < |log| && log[o].Txn? && log[o].write.barrier < o
    && var e := log[o];
       var plan := m.plan(e.write.request, e.write.snapshots);
       && e.index < |plan| && e.record == plan[e.index]
       && Visible(log[..o]) == Visible(log[..e.write.barrier]) + plan[..e.index]
       && forall s <- e.write.snapshots :: s == StateAt(m, log, e.write.barrier)
  }

  ghost predicate CheckedAt<S, R, Q>(w: World<S, R, Q>, o: nat) {
    OpenAt(w, o) && w.log[o].status.checked
  }

  ghost predicate EntryInv<S, R, Q>(m: Machine<S, R, Q>, w: World<S, R, Q>, o: nat)
    requires o < |w.log|
  {
    w.log[o].Txn? ==>
      var e := w.log[o];
      && e.write.node < |w.nodes| && e.write.barrier < o && Elected(w, e.write.generation, e.write.node)
      && (e.status.Open? ==>
            && w.epoch > 0 && w.nodes[e.write.node].epoch == w.epoch && w.nodes[e.write.node].transaction == Sent(o)
            && (e.status.requested ==> e.status.checked)
            && forall i :: o < i < |w.log| ==> w.log[i].Marker?)
      && (CheckedAt(w, o) || e.status.Committed? ==> SerialAt(m, w.log, o))
  }

  ghost predicate OwnerInv<S, R, Q>(w: World<S, R, Q>) {
    && (forall n :: 0 <= n < |w.nodes| ==> w.nodes[n].epoch <= w.epoch)
    && (forall a, b | 0 <= a < |w.nodes| && 0 <= b < |w.nodes| ::
          w.nodes[a].epoch == w.epoch && w.nodes[b].epoch == w.epoch && w.epoch > 0 ==> a == b)
  }

  // Once a node has fenced the current generation, no other generation can still commit.
  ghost predicate FenceInv<S, R, Q>(w: World<S, R, Q>) {
    forall n: nat, o: nat :: n < |w.nodes| && w.nodes[n].fenced == Some(w.generation) && CheckedAt(w, o) ==>
      w.log[o].write.generation == w.generation
  }

  ghost predicate TokenAt<S, R, Q>(w: World<S, R, Q>, n: nat, token: nat, barrier: nat)
    requires n < |w.nodes|
  {
    && token in w.nodes[n].reader.barriers.pending && barrier < |w.log|
    && w.log[barrier] == Marker(token)
    && forall i :: 0 <= i < |w.log| && w.log[i] == Marker(token) ==> i == barrier
  }

  // While the write's generation is current, only the write itself commits after its barrier.
  ghost predicate Quiet<S, R, Q>(w: World<S, R, Q>, n: nat, generation: nat, barrier: nat, expected: seq<R>) {
    && barrier < |w.log| && w.log[barrier].Marker?
    && (w.generation == generation ==> Visible(w.log[barrier..]) == expected)
    && forall o: nat :: barrier < o && CheckedAt(w, o) && w.log[o].write.node == n ==> Driving(w, n, o)
  }

  ghost predicate Gated<S, R, Q>(w: World<S, R, Q>, n: nat, generation: nat)
    requires n < |w.nodes|
  {
    Elected(w, generation, n) && w.nodes[n].fenced == Some(generation)
  }

  ghost predicate SnapshotsOk<S, R, Q>(m: Machine<S, R, Q>, w: World<S, R, Q>, n: nat, write: Write<S, Q>)
    requires n < |w.nodes|
  {
    && write.node == n && write.barrier < w.nodes[n].reader.folded <= |w.log|
    && (w.generation == write.generation ==> forall s <- write.snapshots :: s == StateAt(m, w.log, write.barrier))
  }

  ghost predicate LandedBefore<S, R, Q>(log: Log<S, R, Q>, write: Write<S, Q>, todo: seq<R>, k: nat, p: nat)
    requires k < |todo|
  {
    exists o :: 0 <= o < p && o < |log| && log[o] == Txn(todo[k], Committed, write, k)
  }

  // The records of the write in progress that are committed already.
  ghost function Progress<S, R, Q>(w: World<S, R, Q>, n: nat): nat
    requires n < |w.nodes| && w.nodes[n].phase.Writing?
  {
    var p := w.nodes[n].phase;
    if exists o: nat :: Driving(w, n, o) && w.log[o].status.Committed? then p.done + 1 else p.done
  }

  ghost predicate SendingOk<S, R, Q>(w: World<S, R, Q>, n: nat)
    requires n < |w.nodes| && w.nodes[n].phase.Writing?
  {
    var p := w.nodes[n].phase;
    p.sending ==>
      (&& p.done < |p.todo|
       && match w.nodes[n].transaction
          case NoTransaction => true
          case Sending(r, _, write, index) => r == p.todo[p.done] && write == p.write && index == p.done
          case Sent(o) => o < |w.log| && w.log[o].Txn? && w.log[o].(status := Committed) == Txn(p.todo[p.done],
                  Committed, p.write, p.done))
  }

  ghost predicate PhaseInv<S, R, Q>(m: Machine<S, R, Q>, w: World<S, R, Q>, n: nat)
    requires n < |w.nodes|
  {
    match w.nodes[n].phase
    case Idle => true
    case Fencing(g, _) => Elected(w, g, n)
    case Ordering(g, _) => Gated(w, n, g)
    case Waiting(g, _, t, b) => Gated(w, n, g) && TokenAt(w, n, t, b) && Quiet(w, n, g, b, [])
    case Checking(g, _, b) => Gated(w, n, g) && b < w.nodes[n].reader.folded && Quiet(w, n, g, b, [])
    case Reading(write) =>
      Gated(w, n, write.generation) && SnapshotsOk(m, w, n, write) && Quiet(w, n, write.generation, write.barrier, [])
    case Writing(write, todo, done, sending) =>
      && Gated(w, n, write.generation) && SnapshotsOk(m, w, n, write)
      && todo == m.plan(write.request, write.snapshots) && done <= |todo| && SendingOk(w, n)
      && Progress(w, n) <= |todo| && Quiet(w, n, write.generation, write.barrier, todo[..Progress(w, n)])
      && forall k: nat :: k < done ==> LandedBefore(w.log, write, todo, k, |w.log|)
    case Confirming(write, todo, t, b) =>
      TokenAt(w, n, t, b) && forall k: nat :: k < |todo| ==> LandedBefore(w.log, write, todo, k, b)
    case Returned(write, todo) =>
      forall k: nat :: k < |todo| ==> LandedBefore(w.log, write, todo, k, w.nodes[n].reader.folded)
  }

  ghost predicate NodeInv<S, R, Q>(m: Machine<S, R, Q>, w: World<S, R, Q>, n: nat)
    requires n < |w.nodes|
  {
    var node := w.nodes[n];
    && ReaderInv(m, w.log, node.reader)
    && (forall t :: t in node.reader.barriers.pending || t in node.reader.barriers.invalidated ==> t < w.nextToken)
    && (node.primary.Some? ==> Elected(w, node.primary.value, n))
    && (node.fenced.Some? ==> node.fenced.value <= w.generation)
    && (node.transaction.Sending? ==>
          && node.transaction.epoch <= node.epoch
          && node.transaction.write.node == n && node.transaction.write.barrier < |w.log|
          && Elected(w, node.transaction.write.generation, n))
    && PhaseInv(m, w, n)
  }

  ghost predicate MarkersKnown<S, R, Q>(w: World<S, R, Q>) {
    forall i :: 0 <= i < |w.log| && w.log[i].Marker? ==> w.log[i].token < w.nextToken
  }

  ghost predicate Inv<S, R, Q>(m: Machine<S, R, Q>, w: World<S, R, Q>) {
    && OwnerInv(w) && FenceInv(w) && MarkersKnown(w)
    && (forall o: nat :: o < |w.log| ==> EntryInv(m, w, o))
    && (forall n: nat :: n < |w.nodes| ==> NodeInv(m, w, n))
  }

  // ------------------------------------------------------------------
  // How the log may change around an entry or a node
  // ------------------------------------------------------------------

  // The log evolves without a new commit.
  ghost predicate Calm<S, R, Q>(a: Log<S, R, Q>, b: Log<S, R, Q>) {
    && Evolves(a, b)
    && forall i :: 0 <= i < |b| && b[i].Txn? && b[i].status.Committed? ==> i < |a| && a[i] == b[i]
  }

  lemma {:induction false} CalmVisible<S, R, Q>(a: Log<S, R, Q>, b: Log<S, R, Q>, p: nat)
    requires Calm(a, b) && p <= |a|
    ensures Visible(a[p..]) == Visible(b[p..])
    decreases |b|
  {
    if |b| > p {
      var b' := b[..|b| - 1];
      assert b[p..][..|b| - p - 1] == b'[p..];
      if |a| == |b| {
        var a' := a[..|a| - 1];
        assert a[p..][..|a| - p - 1] == a'[p..];
        assert Calm(a', b');
        CalmVisible(a', b', p);
      } else {
        assert Calm(a, b');
        CalmVisible(a, b', p);
      }
    }
  }

  lemma ResolvedBelow<S, R, Q>(m: Machine<S, R, Q>, w: World<S, R, Q>, o: nat)
    requires Inv(m, w) && o < |w.log| && w.log[o].Txn?
    ensures Stable(w.log, o)
  {
    forall i | 0 <= i < o && w.log[i].Txn?
      ensures !w.log[i].status.Open?
    {
      assert EntryInv(m, w, i);
    }
  }

  lemma SerialStays<S, R, Q>(m: Machine<S, R, Q>, a: Log<S, R, Q>, b: Log<S, R, Q>, o: nat)
    requires SerialAt(m, a, o) && Stable(a, o) && Evolves(a, b)
    ensures SerialAt(m, b, o)
  {
    VisibleFixed(a, b, o);
    assert Stable(a, a[o].write.barrier);
    VisibleFixed(a, b, a[o].write.barrier);
  }

  /** The worlds agree on everything a node or entry away from the step depends on. */
  ghost predicate Onward<S, R, Q>(w: World<S, R, Q>, x: World<S, R, Q>) {
    && Evolves(w.log, x.log) && |w.nodes| == |x.nodes|
    && w.generation <= x.generation && w.nextToken <= x.nextToken && w.epoch <= x.epoch
    && (forall g <- w.elected :: g <= w.generation ==> g in x.elected && x.elected[g] == w.elected[g])
  }

  lemma LandedStays<S, R, Q>(a: Log<S, R, Q>, b: Log<S, R, Q>, write: Write<S, Q>, todo: seq<R>, k: nat, p: nat, q: nat)
    requires k < |todo| && LandedBefore(a, write, todo, k, p) && Evolves(a, b) && p <= q
    ensures LandedBefore(b, write, todo, k, q)
  {
    var o :| 0 <= o < p && o < |a| && a[o] == Txn(todo[k], Committed, write, k);
    assert b[o] == a[o];
  }

  lemma SnapshotsStay<S, R, Q>(m: Machine<S, R, Q>, w: World<S, R, Q>, x: World<S, R, Q>, n: nat, write: Write<S, Q>)
    requires n < |w.nodes| && Onward(w, x) && x.nodes[n].reader.folded >= w.nodes[n].reader.folded
    requires x.nodes[n].reader.folded <= |x.log|
    requires SnapshotsOk(m, w, n, write) && Stable(w.log, w.nodes[n].reader.folded) && write.generation <= w.generation
    ensures SnapshotsOk(m, x, n, write)
  {
    assert Stable(w.log, write.barrier);
    VisibleFixed(w.log, x.log, write.barrier);
  }

  // What the phase of a node still needs from the new world.
  ghost predicate PhaseQuiet<S, R, Q>(w: World<S, R, Q>, x: World<S, R, Q>, n: nat)
    requires n < |w.nodes| && n < |x.nodes|
  {
    match w.nodes[n].phase
    case Waiting(g, _, _, b) => Quiet(x, n, g, b, [])
    case Checking(g, _, b) => Quiet(x, n, g, b, [])
    case Reading(write) => Quiet(x, n, write.generation, write.barrier, [])
    case Writing(write, todo, _, _) =>
      x.nodes[n].phase.Writing? && SendingOk(x, n) && Progress(x, n) <= |todo| && Quiet(x, n, write.generation,
              write.barrier, todo[..Progress(x, n)])
    case _ => true
  }

  // The node keeps its place in the protocol; its reader, epoch and published state may move on.
  ghost predicate SamePlace<S, R, Q>(w: World<S, R, Q>, x: World<S, R, Q>, n: nat)
    requires n < |w.nodes| && n < |x.nodes|
  {
    var a, b := w.nodes[n], x.nodes[n];
    && a.phase == b.phase && (b.transaction.Sending? ==>
        a.transaction == b.transaction) && a.fenced == b.fenced && a.epoch <= b.epoch
    && a.reader.barriers.pending == b.reader.barriers.pending
    && b.reader.barriers.invalidated == a.reader.barriers.invalidated
    && a.reader.folded <= b.reader.folded
    && (b.primary.Some? ==> b.primary == a.primary || Elected(x, b.primary.value, n))
  }

  /** A node in the same place keeps its invariant, if nothing newly committed after a barrier it
      relies on. */
  lemma NodeStays<S, R, Q>(m: Machine<S, R, Q>, w: World<S, R, Q>, x: World<S, R, Q>, n: nat)
    requires n < |w.nodes| && Onward(w, x) && SamePlace(w, x, n) && NodeInv(m, w, n)
    requires ReaderInv(m, x.log, x.nodes[n].reader)
    requires forall i :: |w.log| <= i < |x.log| && x.log[i].Marker? ==>
          x.log[i].token !in w.nodes[n].reader.barriers.pending
    requires PhaseQuiet(w, x, n)
    ensures NodeInv(m, x, n)
  {
    match w.nodes[n].phase
    case Reading(write) => SnapshotsStay(m, w, x, n, write);
    case Writing(write, todo, done, sending) =>
      SnapshotsStay(m, w, x, n, write);
      forall k: nat | k < done ensures LandedBefore(x.log, write, todo, k, |x.log|) {
        LandedStays(w.log, x.log, write, todo, k, |w.log|, |x.log|);
      }
    case Confirming(write, todo, t, b) =>
      forall k: nat | k < |todo| ensures LandedBefore(x.log, write, todo, k, b) {
        LandedStays(w.log, x.log, write, todo, k, b, b);
      }
    case Returned(write, todo) =>
      var p, q := w.nodes[n].reader.folded, x.nodes[n].reader.folded;
      forall k: nat | k < |todo| ensures LandedBefore(x.log, write, todo, k, q) {
        LandedStays(w.log, x.log, write, todo, k, p, q);
      }
    case _ =>
  }

  lemma QuietStays<S, R, Q>(w: World<S, R, Q>, x: World<S, R, Q>, n: nat, g: nat, b: nat, expected: seq<R>)
    requires n < |w.nodes| && Onward(w, x) && Calm(w.log, x.log) && g <= w.generation && Quiet(w, n, g, b, expected)
    requires x.nodes[n].phase == w.nodes[n].phase && x.nodes[n].transaction == w.nodes[n].transaction
    requires forall o: nat :: CheckedAt(x, o) && x.log[o].write.node == n ==> CheckedAt(w, o) || Driving(x, n, o)
    ensures Quiet(x, n, g, b, expected)
  {
    CalmVisible(w.log, x.log, b);
    forall o: nat | b < o && CheckedAt(x, o) && x.log[o].write.node == n
      ensures Driving(x, n, o)
    {
      if CheckedAt(w, o) {
        assert Driving(w, n, o);
      }
    }
  }

  lemma ProgressStays<S, R, Q>(w: World<S, R, Q>, x: World<S, R, Q>, n: nat)
    requires n < |w.nodes| && Onward(w, x) && Calm(w.log, x.log) && w.nodes[n].phase.Writing? && SendingOk(w, n)
    requires x.nodes[n].phase == w.nodes[n].phase && x.nodes[n].transaction == w.nodes[n].transaction
    ensures Progress(x, n) == Progress(w, n) && SendingOk(x, n)
  {
    if o: nat :| Driving(w, n, o) && w.log[o].status.Committed? {
      assert Driving(x, n, o) && x.log[o].status.Committed?;
    }
    if o: nat :| Driving(x, n, o) && x.log[o].status.Committed? {
      assert Driving(w, n, o) && w.log[o].status.Committed?;
    }
  }

  lemma CalmQuiet<S, R, Q>(m: Machine<S, R, Q>, w: World<S, R, Q>, x: World<S, R, Q>, n: nat)
    requires n < |w.nodes| && Onward(w, x) && Calm(w.log, x.log) && NodeInv(m, w, n)
    requires x.nodes[n].phase == w.nodes[n].phase && x.nodes[n].transaction == w.nodes[n].transaction
    requires forall o: nat :: CheckedAt(x, o) && x.log[o].write.node == n ==> CheckedAt(w, o) || Driving(x, n, o)
    ensures PhaseQuiet(w, x, n)
  {
    match w.nodes[n].phase
    case Waiting(g, _, _, b) => QuietStays(w, x, n, g, b, []);
    case Checking(g, _, b) => QuietStays(w, x, n, g, b, []);
    case Reading(write) => QuietStays(w, x, n, write.generation, write.barrier, []);
    case Writing(write, todo, _, _) =>
      ProgressStays(w, x, n);
      QuietStays(w, x, n, write.generation, write.barrier, todo[..Progress(w, n)]);
    case _ =>
  }

  /** An entry that keeps its status, or only gets resolved without a commit, keeps its invariant. */
  lemma EntryStays<S, R, Q>(m: Machine<S, R, Q>, w: World<S, R, Q>, x: World<S, R, Q>, o: nat)
    requires Inv(m, w) && Onward(w, x) && o < |w.log|
    requires OpenAt(x, o) ==>
               && w.log[o].write.node < |w.nodes| && x.epoch == w.epoch && x.nodes[w.log[o].write.node].epoch == w.epoch
               && x.nodes[w.log[o].write.node].transaction == w.nodes[w.log[o].write.node].transaction
               && (x.log[o].status.requested ==> x.log[o].status.checked)
               && forall i :: |w.log| <= i < |x.log| ==> x.log[i].Marker?
    requires CheckedAt(x, o) || (x.log[o].Txn? && x.log[o].status.Committed?) ==> SerialAt(m, w.log, o)
    ensures EntryInv(m, x, o)
  {
    assert EntryInv(m, w, o);
    if CheckedAt(x, o) || (x.log[o].Txn? && x.log[o].status.Committed?) {
      ResolvedBelow(m, w, o);
      SerialStays(m, w.log, x.log, o);
    }
  }

  /** Node `n` (or no node, when `n` is out of range) moved, and nothing newly committed. */
  ghost predicate CalmStep<S, R, Q>(w: World<S, R, Q>, x: World<S, R, Q>, n: nat) {
    && Onward(w, x) && Calm(w.log, x.log)
    && (forall k: nat :: k < |w.nodes| && k != n ==> x.nodes[k] == w.nodes[k])
    && (forall o: nat :: CheckedAt(x, o) ==> CheckedAt(w, o) || x.log[o].write.node == n)
    && (forall i, k :: |w.log| <= i < |x.log| && x.log[i].Marker? && 0 <= k < |w.nodes| && k != n ==>
        x.log[i].token !in w.nodes[k].reader.barriers.pending)
  }

  lemma OthersStay<S, R, Q>(m: Machine<S, R, Q>, w: World<S, R, Q>, x: World<S, R, Q>, n: nat)
    requires Inv(m, w) && CalmStep(w, x, n)
    ensures forall k: nat :: k < |w.nodes| && k != n ==> NodeInv(m, x, k)
  {
    forall k: nat | k < |w.nodes| && k != n
      ensures NodeInv(m, x, k)
    {
      assert NodeInv(m, w, k);
      ReaderInvEvolves(m, w.log, x.log, w.nodes[k].reader);
      CalmQuiet(m, w, x, k);
      NodeStays(m, w, x, k);
    }
  }

  // The log, epochs and transactions are as before.
  lemma EntriesStay<S, R, Q>(m: Machine<S, R, Q>, w: World<S, R, Q>, x: World<S, R, Q>)
    requires Inv(m, w) && Onward(w, x) && x.log == w.log && x.epoch == w.epoch
    requires forall k: nat :: k < |w.nodes| ==> x.nodes[k].epoch == w.nodes[k].epoch
    requires forall k: nat ::
          k < |w.nodes| && w.nodes[k].transaction.Sent? && OpenAt(w, w.nodes[k].transaction.offset) ==>
               x.nodes[k].transaction == w.nodes[k].transaction
    ensures forall o: nat :: o < |x.log| ==> EntryInv(m, x, o)
  {
    forall o: nat | o < |x.log|
      ensures EntryInv(m, x, o)
    {
      assert EntryInv(m, w, o);
      EntryStays(m, w, x, o);
    }
  }

  // ------------------------------------------------------------------
  // Steps of one node that leave the log alone
  // ------------------------------------------------------------------

  /** The node moved to a new phase or reader state by itself. */
  lemma LocalStep<S, R, Q>(m: Machine<S, R, Q>, w: World<S, R, Q>, x: World<S, R, Q>, n: nat)
    requires Inv(m, w) && n < |w.nodes| == |x.nodes| && x == SetNode(w, n, x.nodes[n])
    requires x.nodes[n].epoch == w.nodes[n].epoch && x.nodes[n].fenced == w.nodes[n].fenced
    requires || x.nodes[n].transaction == w.nodes[n].transaction
             || !(w.nodes[n].transaction.Sent? && OpenAt(w, w.nodes[n].transaction.offset))
    requires NodeInv(m, x, n)
    ensures Inv(m, x)
  {
    assert forall o: nat :: CheckedAt(x, o) <==> CheckedAt(w, o);
    OthersStay(m, w, x, n);
    EntriesStay(m, w, x);
  }

  lemma ReaderStep<S(!new), R(!new), Q>(m: Machine<S, R, Q>, w: World<S, R, Q>, x: World<S, R, Q>, n: nat)
    requires Inv(m, w) && n < |w.nodes| == |x.nodes|
    requires x == SetNode(w, n, w.nodes[n].(reader := x.nodes[n].reader, primary := x.nodes[n].primary))
    requires SamePlace(w, x, n) && ReaderInv(m, w.log, x.nodes[n].reader)
    ensures Inv(m, x)
  {
    assert NodeInv(m, w, n);
    CalmQuiet(m, w, x, n);
    NodeStays(m, w, x, n);
    LocalStep(m, w, x, n);
  }
}

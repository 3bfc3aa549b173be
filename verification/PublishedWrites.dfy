/** Only a node that is still published primary when its barrier has come back reads and writes. */
module PublishedWrites {
  import opened Wrappers
  import opened SchemaLog
  import opened Reader
  import opened Protocol
  import opened SerialDecisions
  import opened SerialRuns

  // ------------------------------------------------------------------
  // How a step changes the log
  // ------------------------------------------------------------------

  // Entries keep the write they belong to.
  ghost predicate SameWrites<S, R, Q>(a: Log<S, R, Q>, b: Log<S, R, Q>) {
    && |a| <= |b|
    && forall o :: 0 <= o < |a| ==> b[o].Txn? == a[o].Txn? && (a[o].Txn? ==> b[o].write == a[o].write)
  }

  lemma LogGrows<S(!new), R(!new), Q(!new)>(m: Machine<S, R, Q>, w: World<S, R, Q>, step: Step<Q>, x: World<S, R, Q>)
    requires Do(m, w, step, x)
    ensures SameWrites(w.log, x.log)
    ensures forall o :: |w.log| <= o < |x.log| && x.log[o].Txn? ==>
              && step.Append? && step.n < |w.nodes| && w.nodes[step.n].transaction.Sending?
              && w.nodes[step.n].transaction.epoch == w.epoch > 0
              && x.log[o].write == w.nodes[step.n].transaction.write
  {
    hide Fetch, Reset, PollToken, Cancel, Reserve, PhaseToken;
  }

  // The node that a step concerns.
  function StepNode<Q>(step: Step<Q>): Option<nat> {
    match step
    case Elect(_) => None
    case StrayMarker(_) => None
    case CommitAt(_) => None
    case AbortAt(_) => None
    case Begin(n, _) => Some(n)
    case Learn(n, _) => Some(n)
    case FetchTo(n, _) => Some(n)
    case ResetTo(n, _) => Some(n)
    case Forget(n) => Some(n)
    case Fence(n) => Some(n)
    case LateInit(n) => Some(n)
    case Order(n) => Some(n)
    case Await(n) => Some(n)
    case Recheck(n) => Some(n)
    case Snapshot(n) => Some(n)
    case Decide(n) => Some(n)
    case BeginTransaction(n) => Some(n)
    case Append(n) => Some(n)
    case DropSend(n) => Some(n)
    case SendOffsets(n) => Some(n)
    case RequestCommit(n) => Some(n)
    case Next(n) => Some(n)
    case OrderConfirmation(n) => Some(n)
    case Confirm(n) => Some(n)
    case Abandon(n) => Some(n)
  }

  lemma Elsewhere<S(!new), R(!new), Q(!new)>(m: Machine<S, R, Q>, w: World<S, R, Q>, step: Step<Q>, x: World<S, R, Q>)
    requires Do(m, w, step, x)
    ensures |x.nodes| == |w.nodes| && w.epoch <= x.epoch
    ensures forall k: nat :: k < |w.nodes| && StepNode(step) != Some(k) ==> x.nodes[k] == w.nodes[k]
    ensures !step.Elect? ==> x.generation == w.generation
  {
    hide Fetch, Reset, PollToken, Cancel, Reserve, PhaseToken, AbortOpen, SetStatus, Elected, Stable, Horizon, OpenAt;
    hide Driving, Busy;
  }

  // ------------------------------------------------------------------
  // Only a published primary reads and writes
  // ------------------------------------------------------------------

  /** The recheck of a write: the node, the generation, the barrier that came back, and the request. */
  type Rechecks<!Q> = (nat, nat, nat, Q) -> bool

  ghost predicate HeldWrite<S, R, Q>(held: Rechecks<Q>, n: nat, write: Write<S, Q>) {
    write.node == n && held(n, write.generation, write.barrier, write.request)
  }

  ghost predicate HeldNode<S, R, Q>(held: Rechecks<Q>, node: Node<S, R, Q>, n: nat) {
    && (match node.phase
        case Reading(write) => HeldWrite<S, R, Q>(held, n, write)
        case Writing(write, _, _, _) => HeldWrite<S, R, Q>(held, n, write)
        case Confirming(write, _, _, _) => HeldWrite<S, R, Q>(held, n, write)
        case Returned(write, _) => HeldWrite<S, R, Q>(held, n, write)
        case _ => true)
    && (node.transaction.Sending? ==> HeldWrite<S, R, Q>(held, n, node.transaction.write))
  }

  // Every write that reads, that sends and that is in the log was held to be published at a recheck.
  ghost predicate Held<S, R, Q>(held: Rechecks<Q>, w: World<S, R, Q>) {
    && (forall n: nat :: n < |w.nodes| ==> HeldNode(held, w.nodes[n], n))
    && forall o :: 0 <= o < |w.log| && w.log[o].Txn? ==> HeldWrite<S, R, Q>(held, w.log[o].write.node, w.log[o].write)
  }

  // A recheck that finds the node published primary for the write's own generation.
  ghost predicate Published<S, R, Q>(w: World<S, R, Q>, step: Step<Q>, n: nat, g: nat, barrier: nat, request: Q) {
    && step == Recheck(n) && n < |w.nodes| && w.nodes[n].phase == Checking(g, request, barrier)
    && w.nodes[n].primary == Some(g)
  }

  lemma HeldNodes<S(!new), R(!new), Q(!new)>(m: Machine<S, R, Q>, w: World<S, R, Q>, step: Step<Q>, x: World<S, R, Q>,
          held: Rechecks<Q>, k: nat)
    requires Held(held, w) && Do(m, w, step, x) && k < |x.nodes|
    requires forall n, g, b, q :: Published(w, step, n, g, b, q) ==> held(n, g, b, q)
    ensures HeldNode(held, x.nodes[k], k)
  {
    Elsewhere(m, w, step, x);
    assert HeldNode(held, w.nodes[k], k);
    if StepNode(step) == Some(k) {
      HeldOwn(m, w, step, x, held, k);
    }
    hide Do, HeldNode;
  }

  lemma HeldOwn<S(!new), R(!new), Q(!new)>(m: Machine<S, R, Q>, w: World<S, R, Q>, step: Step<Q>, x: World<S, R, Q>,
          held: Rechecks<Q>, k: nat)
    requires k < |w.nodes| == |x.nodes| && HeldNode(held, w.nodes[k], k) && Do(m, w, step, x)
    requires StepNode(step) == Some(k)
    requires forall n, g, b, q :: Published(w, step, n, g, b, q) ==> held(n, g, b, q)
    ensures HeldNode(held, x.nodes[k], k)
  {
    hide Fetch, Reset, PollToken, Cancel, Reserve, PhaseToken, AbortOpen, SetStatus, Elected, Stable, Horizon, OpenAt;
    hide Busy;
    if step.Recheck? && step.n == k && w.nodes[k].phase.Checking? {
      var p := w.nodes[k].phase;
      assert w.nodes[k].primary == Some(p.generation) ==>
          Published(w, step, k, p.generation, p.barrier, p.request);
    }
  }

  lemma HeldLog<S(!new), R(!new), Q(!new)>(m: Machine<S, R, Q>, w: World<S, R, Q>, step: Step<Q>, x: World<S, R, Q>,
          held: Rechecks<Q>)
    requires Held(held, w) && Do(m, w, step, x)
    ensures forall o :: 0 <= o < |x.log| && x.log[o].Txn? ==>
              HeldWrite<S, R, Q>(held, x.log[o].write.node, x.log[o].write)
  {
    LogGrows(m, w, step, x);
    hide Do;
    if step.Append? && step.n < |w.nodes| { assert HeldNode(held, w.nodes[step.n], step.n); }
  }

  ghost function Before<S(!new), R(!new), Q(!new)>(run: seq<World<S, R, Q>>, steps: seq<Step<Q>>, i: nat): Rechecks<Q>
    requires i <= |steps| < |run|
  {
    (n: nat, g: nat, b: nat, q: Q) => exists j :: 0 <= j < i && Published(run[j], steps[j], n, g, b, q)
  }

  lemma HeldLater<S(!new), R(!new), Q(!new)>(a: Rechecks<Q>, b: Rechecks<Q>, w: World<S, R, Q>)
    requires Held(a, w) && forall n, g, k, q :: a(n, g, k, q) ==> b(n, g, k, q)
    ensures Held(b, w)
  {
    forall n: nat | n < |w.nodes| ensures HeldNode(b, w.nodes[n], n) { assert HeldNode(a, w.nodes[n], n); }
  }

  lemma {:induction false} RunHeld<S(!new), R(!new), Q(!new)>(m: Machine<S, R, Q>, run: seq<World<S, R, Q>>,
          steps: seq<Step<Q>>, i: nat)
    requires IsRun(m, run, steps) && i < |run|
    ensures Held(Before(run, steps, i), run[i])
  {
    hide Do, Held, Published;
    if i == 0 {
      NothingHeld(m, run[0], Before(run, steps, 0));
    } else {
      RunHeld(m, run, steps, i - 1);
      var earlier, now := Before(run, steps, i - 1), Before(run, steps, i);
      HeldLater(earlier, now, run[i - 1]);
      assert Do(m, run[i - 1], steps[i - 1], run[i]);
      HeldStep(m, run[i - 1], steps[i - 1], run[i], now);
    }
  }

  lemma HeldStep<S(!new), R(!new), Q(!new)>(m: Machine<S, R, Q>, w: World<S, R, Q>, step: Step<Q>, x: World<S, R, Q>,
          held: Rechecks<Q>)
    requires Held(held, w) && Do(m, w, step, x)
    requires forall n, g, b, q :: Published(w, step, n, g, b, q) ==> held(n, g, b, q)
    ensures Held(held, x)
  {
    hide Do, Published, HeldNode;
    HeldLog(m, w, step, x, held);
    forall n: nat | n < |x.nodes| ensures HeldNode(held, x.nodes[n], n) { HeldNodes(m, w, step, x, held, n); }
  }

  lemma NothingHeld<S(!new), R(!new), Q(!new)>(m: Machine<S, R, Q>, w: World<S, R, Q>, held: Rechecks<Q>)
    requires Init(m, w)
    ensures Held(held, w)
  {}

  /** In every world of every run, each write that reads snapshots, that sends a record or that has one in the
      log was found published primary for its own generation when its barrier had come back. */
  lemma WritersWerePublished<S(!new), R(!new), Q(!new)>(m: Machine<S, R, Q>, run: seq<World<S, R, Q>>,
          steps: seq<Step<Q>>, i: nat)
    requires IsRun(m, run, steps) && i < |run|
    ensures forall n: nat :: n < |run[i].nodes| && run[i].nodes[n].phase.Reading? ==>
              var write := run[i].nodes[n].phase.write;
              exists j :: 0 <= j < i && Published(run[j], steps[j], n, write.generation, write.barrier, write.request)
    ensures forall o :: 0 <= o < |run[i].log| && run[i].log[o].Txn? ==>
              var write := run[i].log[o].write;
              exists j :: 0 <= j < i &&
                Published(run[j], steps[j], write.node, write.generation, write.barrier, write.request)
  {
    hide Do, Published, Init;
    RunHeld(m, run, steps, i);
    forall n: nat | n < |run[i].nodes| && run[i].nodes[n].phase.Reading?
      ensures var write := run[i].nodes[n].phase.write;
              exists j :: 0 <= j < i && Published(run[j], steps[j], n, write.generation, write.barrier, write.request)
    {
      assert HeldNode(Before(run, steps, i), run[i].nodes[n], n);
    }
  }

  // ------------------------------------------------------------------
  // A node that was not is sent away
  // ------------------------------------------------------------------

  // The node has no write with this barrier before or at its recheck, and can get none any more.
  ghost predicate Over<S, R, Q>(w: World<S, R, Q>, n: nat, barrier: nat)
    requires n < |w.nodes|
  {
    && barrier < |w.log|
    && (w.nodes[n].phase.Waiting? ==> w.nodes[n].phase.barrier != barrier)
    && (w.nodes[n].phase.Checking? ==> w.nodes[n].phase.barrier != barrier)
  }

  lemma OverOwn<S(!new), R(!new), Q(!new)>(m: Machine<S, R, Q>, w: World<S, R, Q>, step: Step<Q>, x: World<S, R, Q>,
          n: nat, barrier: nat)
    requires n < |w.nodes| == |x.nodes| && Over(w, n, barrier) && Do(m, w, step, x) && StepNode(step) == Some(n)
    requires |w.log| <= |x.log|
    ensures Over(x, n, barrier)
  {
    hide Fetch, Reset, PollToken, Cancel, Reserve, PhaseToken, AbortOpen, SetStatus, Elected, Stable, Horizon, OpenAt;
    hide Driving, Busy;
  }

  lemma OverStays<S(!new), R(!new), Q(!new)>(m: Machine<S, R, Q>, w: World<S, R, Q>, step: Step<Q>, x: World<S, R, Q>,
          n: nat, barrier: nat)
    requires n < |w.nodes| && Over(w, n, barrier) && Do(m, w, step, x)
    ensures n < |x.nodes| && Over(x, n, barrier)
  {
    LogGrows(m, w, step, x);
    Elsewhere(m, w, step, x);
    if StepNode(step) == Some(n) { OverOwn(m, w, step, x, n, barrier); }
    hide Do;
  }

  lemma RecheckedIsOver<S(!new), R(!new), Q(!new)>(m: Machine<S, R, Q>, w: World<S, R, Q>, x: World<S, R, Q>, n: nat)
    requires Inv(m, w) && Do(m, w, Recheck(n), x)
    ensures n < |w.nodes| && w.nodes[n].phase.Checking? && n < |x.nodes| && Over(x, n, w.nodes[n].phase.barrier)
  {
    assert NodeInv(m, w, n);
  }

  lemma {:induction false} OverFrom<S(!new), R(!new), Q(!new)>(m: Machine<S, R, Q>, run: seq<World<S, R, Q>>,
          steps: seq<Step<Q>>, j: nat, i: nat, n: nat, barrier: nat)
    requires IsRun(m, run, steps) && j <= i < |run| && n < |run[j].nodes| && Over(run[j], n, barrier)
    ensures n < |run[i].nodes| && Over(run[i], n, barrier)
    decreases i
  {
    hide Do, Over, Init;
    if j < i {
      OverFrom(m, run, steps, j, i - 1, n, barrier);
      assert Do(m, run[i - 1], steps[i - 1], run[i]);
      OverStays(m, run[i - 1], steps[i - 1], run[i], n, barrier);
    }
  }

  // No node rechecks one barrier twice.
  lemma RechecksOnce<S(!new), R(!new), Q(!new)>(m: Machine<S, R, Q>, run: seq<World<S, R, Q>>, steps: seq<Step<Q>>,
          j: nat, k: nat, n: nat)
    requires Lawful(m) && IsRun(m, run, steps) && j < k < |steps| && steps[j] == Recheck(n) == steps[k]
    ensures && n < |run[j].nodes| && n < |run[k].nodes|
            && run[j].nodes[n].phase.Checking? && run[k].nodes[n].phase.Checking?
            && run[j].nodes[n].phase.barrier != run[k].nodes[n].phase.barrier
  {
    hide Do, Inv, Init, Lawful;
    RunKeeps(m, run, steps, j);
    RunKeeps(m, run, steps, k);
    assert Do(m, run[j], steps[j], run[j + 1]) && Do(m, run[k], steps[k], run[k + 1]);
    RecheckedIsOver(m, run[j], run[j + 1], n);
    RecheckedIsOver(m, run[k], run[k + 1], n);
    OverFrom(m, run, steps, j + 1, k, n, run[j].nodes[n].phase.barrier);
  }

  /** A node whose published state is not that of its write's generation when its barrier has come back gives the
      write up: it is idle, and in no world of the run does the log hold a record of that write. */
  lemma OthersAreSentAway<S(!new), R(!new), Q(!new)>(m: Machine<S, R, Q>, run: seq<World<S, R, Q>>,
          steps: seq<Step<Q>>, j: nat, n: nat)
    requires Lawful(m) && IsRun(m, run, steps) && j < |steps| && steps[j] == Recheck(n)
    requires n < |run[j].nodes| && run[j].nodes[n].phase.Checking?
    requires run[j].nodes[n].primary != Some(run[j].nodes[n].phase.generation)
    ensures n < |run[j + 1].nodes| && run[j + 1].nodes[n].phase.Idle?
    ensures forall i, o :: 0 <= i < |run| && 0 <= o < |run[i].log| && run[i].log[o].Txn? ==>
              run[i].log[o].write.node != n || run[i].log[o].write.barrier != run[j].nodes[n].phase.barrier
  {
    assert Do(m, run[j], steps[j], run[j + 1]);
    hide Do, Init, Lawful;
    forall i, o | 0 <= i < |run| && 0 <= o < |run[i].log| && run[i].log[o].Txn?
      ensures run[i].log[o].write.node != n || run[i].log[o].write.barrier != run[j].nodes[n].phase.barrier
    {
      var write := run[i].log[o].write;
      WritersWerePublished(m, run, steps, i);
      var k :| 0 <= k < i && Published(run[k], steps[k], write.node, write.generation, write.barrier, write.request);
      if write.node == n && k < j { RechecksOnce(m, run, steps, k, j, n); }
      if write.node == n && j < k { RechecksOnce(m, run, steps, j, k, n); }
    }
  }
}

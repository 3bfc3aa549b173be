/** Gated writes of competing primaries over one log: fence, barrier, wait, recheck, decide on
    snapshots, append fenced transactions, confirm with a second barrier. */
module Protocol {
  import opened Wrappers
  import opened SchemaLog
  import opened Reader

  /** A node's producer has at most one transaction. `Sending`: begun, the record not yet appended. */
  datatype Transaction<S, R, Q> =
    | NoTransaction
    | Sending(record: R, epoch: nat, write: Write<S, Q>, index: nat)
    | Sent(offset: nat)

  /** How far the write that holds the node's gate has come. */
  datatype Phase<S, R, Q> =
    | Idle
    | Fencing(generation: nat, request: Q)
    | Ordering(generation: nat, request: Q)
    | Waiting(generation: nat, request: Q, token: nat, barrier: nat)
    | Checking(generation: nat, request: Q, barrier: nat)
    | Reading(write: Write<S, Q>)
    | Writing(write: Write<S, Q>, todo: seq<R>, done: nat, sending: bool)
    | Confirming(write: Write<S, Q>, todo: seq<R>, token: nat, barrier: nat)
    | Returned(write: Write<S, Q>, todo: seq<R>)

  datatype Node<S, R, Q> = Node(
    primary: Option<nat>,           // generation of the published primary state, possibly stale
    fenced: Option<nat>,            // generation the transactional producer was last initialised for
    epoch: nat,                     // producer epoch, 0 before the first initialisation
    reader: Reader<S>,
    phase: Phase<S, R, Q>,
    transaction: Transaction<S, R, Q>)

  datatype World<S, R, Q> = World(
    log: Log<S, R, Q>,
    epoch: nat,
    generation: nat,
    elected: map<nat, nat>,         // generation -> the one node it makes primary
    nodes: seq<Node<S, R, Q>>,
    nextToken: nat)

  ghost predicate Init<S, R, Q>(m: Machine<S, R, Q>, w: World<S, R, Q>) {
    && w.log == [] && w.epoch == 0 && w.generation == 0 && w.elected == map[] && w.nextToken == 0
    && forall n :: 0 <= n < |w.nodes| ==> w.nodes[n] == Node(None, None, 0, Start(m), Idle, NoTransaction)
  }

  // ------------------------------------------------------------------
  // Steps
  // ------------------------------------------------------------------

  datatype Step<Q> =
    | Elect(winner: Option<nat>)
    | Learn(n: nat, generation: nat)
    | Forget(n: nat)
    | Begin(n: nat, request: Q)
    | Fence(n: nat)
    | LateInit(n: nat)
    | Order(n: nat)
    | StrayMarker(token: nat)
    | Await(n: nat)
    | Recheck(n: nat)
    | Snapshot(n: nat)
    | Decide(n: nat)
    | BeginTransaction(n: nat)
    | Append(n: nat)
    | DropSend(n: nat)
    | SendOffsets(n: nat)
    | RequestCommit(n: nat)
    | CommitAt(offset: nat)
    | AbortAt(offset: nat)
    | Next(n: nat)
    | OrderConfirmation(n: nat)
    | Confirm(n: nat)
    | Abandon(n: nat)
    | FetchTo(n: nat, upto: nat)
    | ResetTo(n: nat, end: nat)

  function AbortOpen<S, R, Q>(log: Log<S, R, Q>): Log<S, R, Q> {
    seq(|log|, i requires 0 <= i < |log| => if log[i].Txn? && log[i].status.Open? then log[i].(status := Aborted)
                                            else log[i])
  }

  function SetStatus<S, R, Q>(log: Log<S, R, Q>, o: nat, status: Status): Log<S, R, Q>
    requires o < |log| && log[o].Txn?
  {
    log[o := log[o].(status := status)]
  }

  function SetNode<S, R, Q>(w: World<S, R, Q>, n: nat, node: Node<S, R, Q>): World<S, R, Q>
    requires n < |w.nodes|
  {
    w.(nodes := w.nodes[n := node])
  }

  function Enter<S, R, Q>(w: World<S, R, Q>, n: nat, phase: Phase<S, R, Q>): World<S, R, Q>
    requires n < |w.nodes|
  {
    SetNode(w, n, w.nodes[n].(phase := phase))
  }

  ghost predicate OpenAt<S, R, Q>(w: World<S, R, Q>, o: nat) {
    o < |w.log| && w.log[o].Txn? && w.log[o].status.Open?
  }

  ghost predicate Busy<S, R, Q>(w: World<S, R, Q>, n: nat)
    requires n < |w.nodes|
  {
    match w.nodes[n].transaction
    case NoTransaction => false
    case Sending(_, _, _, _) => true
    case Sent(o) => OpenAt(w, o)
  }

  // The transaction that the write in progress is driving.
  ghost predicate Driving<S, R, Q>(w: World<S, R, Q>, n: nat, o: nat) {
    && n < |w.nodes| && w.nodes[n].phase.Writing? && w.nodes[n].phase.sending
    && w.nodes[n].transaction == Sent(o) && o < |w.log| && w.log[o].Txn?
  }

  // A fresh token is reserved and its marker appended.
  function Ordered<S, R, Q>(w: World<S, R, Q>, n: nat, phase: Phase<S, R, Q>): World<S, R, Q>
    requires n < |w.nodes|
  {
    var node := w.nodes[n];
    SetNode(w.(log := w.log + [Marker(w.nextToken)], nextToken := w.nextToken + 1), n,
            node.(reader := node.reader.(barriers := Reserve(node.reader.barriers, w.nextToken)), phase := phase))
  }

  function Initialised<S, R, Q>(w: World<S, R, Q>, n: nat, fenced: Option<nat>, phase: Phase<S, R, Q>): World<S, R, Q>
    requires n < |w.nodes|
  {
    SetNode(w.(log := AbortOpen(w.log), epoch := w.epoch + 1), n,
            w.nodes[n].(epoch := w.epoch + 1, fenced := fenced, phase := phase))
  }

  function PhaseToken<S, R, Q>(p: Phase<S, R, Q>): Option<nat> {
    if p.Waiting? || p.Confirming? then Some(p.token) else None
  }

  ghost predicate Do<S, R, Q>(m: Machine<S, R, Q>, w: World<S, R, Q>, step: Step<Q>, x: World<S, R, Q>) {
    match step
    case Elect(winner) =>
      && (winner.Some? ==> winner.value < |w.nodes|)
      && x == w.(generation := w.generation + 1,
                 elected := if winner.Some? then w.elected[w.generation + 1 := winner.value] else w.elected)
    case Learn(n, g) =>
      n < |w.nodes| && Elected(w, g, n) && x == SetNode(w, n, w.nodes[n].(primary := Some(g)))
    case Forget(n) =>
      n < |w.nodes| && x == SetNode(w, n, w.nodes[n].(primary := None))
    case Begin(n, request) =>
      && n < |w.nodes| && w.nodes[n].phase.Idle? && w.nodes[n].primary.Some?
      && x == Enter(w, n, Fencing(w.nodes[n].primary.value, request))
    case Fence(n) =>
      && n < |w.nodes| && w.nodes[n].phase.Fencing?
      && var p := w.nodes[n].phase;
         if w.nodes[n].fenced == Some(p.generation) then x == Enter(w, n, Ordering(p.generation, p.request))
         else x == Initialised(w, n, Some(p.generation), Ordering(p.generation, p.request))
    case LateInit(n) =>
      n < |w.nodes| && x == Initialised(w, n, w.nodes[n].fenced, w.nodes[n].phase)
    case Order(n) =>
      && n < |w.nodes| && w.nodes[n].phase.Ordering?
      && var p := w.nodes[n].phase;
         x == Ordered(w, n, Waiting(p.generation, p.request, w.nextToken, |w.log|))
    case StrayMarker(token) =>
      && token < w.nextToken && (forall k :: 0 <= k < |w.nodes| ==> token !in w.nodes[k].reader.barriers.pending)
      && x == w.(log := w.log + [Marker(token)])
    case Await(n) =>
      && n < |w.nodes| && w.nodes[n].phase.Waiting?
      && var p, node := w.nodes[n].phase, w.nodes[n];
         var (barriers, poll) := PollToken(node.reader.barriers, p.token);
         && poll.Seen?
         && x == SetNode(w, n, node.(reader := node.reader.(barriers := barriers),
                                     phase := Checking(p.generation, p.request, p.barrier)))
    case Recheck(n) =>
      && n < |w.nodes| && w.nodes[n].phase.Checking?
      && var p := w.nodes[n].phase;
         var write := Write(n, p.generation, p.barrier, p.request, []);
         x == Enter(w, n, if w.nodes[n].primary == Some(p.generation) then Reading(write) else Idle)
    case Snapshot(n) =>
      && n < |w.nodes| && w.nodes[n].phase.Reading?
      && var write := w.nodes[n].phase.write;
         x == Enter(w, n, Reading(write.(snapshots := write.snapshots + [w.nodes[n].reader.live])))
    case Decide(n) =>
      && n < |w.nodes| && w.nodes[n].phase.Reading?
      && var write := w.nodes[n].phase.write;
         x == Enter(w, n, Writing(write, m.plan(write.request, write.snapshots), 0, false))
    case BeginTransaction(n) =>
      && n < |w.nodes| && w.nodes[n].phase.Writing? && !w.nodes[n].phase.sending && !Busy(w, n)
      && var p := w.nodes[n].phase;
         && p.done < |p.todo|
         && x == SetNode(w, n, w.nodes[n].(phase := p.(sending := true),
                                           transaction := Sending(p.todo[p.done], w.nodes[n].epoch, p.write, p.done)))
    case Append(n) =>
      && n < |w.nodes| && w.nodes[n].transaction.Sending?
      && var t := w.nodes[n].transaction;
         && t.epoch == w.epoch && w.epoch > 0
         && x == SetNode(w.(log := w.log + [Txn(t.record, Open(false, false), t.write, t.index)]), n,
                 w.nodes[n].(transaction := Sent(|w.log|)))
    case DropSend(n) =>
      && n < |w.nodes| && w.nodes[n].transaction.Sending?
      && x == SetNode(w, n, w.nodes[n].(transaction := NoTransaction))
    case SendOffsets(n) =>
      && n < |w.nodes| && w.nodes[n].transaction.Sent?
      && var o := w.nodes[n].transaction.offset;
         && Driving(w, n, o) && OpenAt(w, o) && w.nodes[n].phase.write.generation == w.generation
         && x == w.(log := SetStatus(w.log, o, Open(true, false)))
    case RequestCommit(n) =>
      && n < |w.nodes| && w.nodes[n].transaction.Sent?
      && var o := w.nodes[n].transaction.offset;
         && Driving(w, n, o) && OpenAt(w, o) && w.log[o].status.checked
         && x == w.(log := SetStatus(w.log, o, Open(true, true)))
    case CommitAt(o) =>
      OpenAt(w, o) && w.log[o].status.requested && x == w.(log := SetStatus(w.log, o, Committed))
    case AbortAt(o) =>
      OpenAt(w, o) && x == w.(log := SetStatus(w.log, o, Aborted))
    case Next(n) =>
      && n < |w.nodes| && w.nodes[n].transaction.Sent?
      && var o := w.nodes[n].transaction.offset;
         && Driving(w, n, o) && w.log[o].status.Committed?
         && var p := w.nodes[n].phase;
            x == Enter(w, n, p.(done := p.done + 1, sending := false))
    case OrderConfirmation(n) =>
      && n < |w.nodes| && w.nodes[n].phase.Writing?
      && var p := w.nodes[n].phase;
         && p.done == |p.todo| && p.todo != []
         && x == Ordered(w, n, Confirming(p.write, p.todo, w.nextToken, |w.log|))
    case Confirm(n) =>
      && n < |w.nodes| && w.nodes[n].phase.Confirming?
      && var p, node := w.nodes[n].phase, w.nodes[n];
         var (barriers, poll) := PollToken(node.reader.barriers, p.token);
         && poll.Seen?
         && x == SetNode(w, n, node.(reader := node.reader.(barriers := barriers), phase := Returned(p.write, p.todo)))
    case Abandon(n) =>
      && n < |w.nodes|
      && var node := w.nodes[n];
         var held := node.reader.barriers;
         var barriers := match PhaseToken(node.phase) case Some(t) => Cancel(held, t) case None => held;
         x == SetNode(w, n, node.(reader := node.reader.(barriers := barriers), phase := Idle))
    case FetchTo(n, upto) =>
      && n < |w.nodes| && w.nodes[n].reader.next <= upto && Stable(w.log, upto)
      && x == SetNode(w, n, w.nodes[n].(reader := Fetch(m, w.nodes[n].reader, w.log, upto)))
    case ResetTo(n, end) =>
      && n < |w.nodes| && Stable(w.log, end) && Horizon(w.nodes[n].reader) <= end
      && x == SetNode(w, n, w.nodes[n].(reader := Reset(m, w.nodes[n].reader, end)))
  }

  ghost predicate Elected<S, R, Q>(w: World<S, R, Q>, g: nat, n: nat) {
    g <= w.generation && g in w.elected && w.elected[g] == n
  }

  // Every two neighbouring worlds of a run are related by the step between them.
  ghost predicate IsRun<S, R, Q>(m: Machine<S, R, Q>, run: seq<World<S, R, Q>>, steps: seq<Step<Q>>) {
    && |run| == |steps| + 1 && Init(m, run[0])
    && forall i :: 0 <= i < |steps| ==> Do(m, run[i], steps[i], run[i + 1])
  }
}

/** Every step of the protocol keeps the serial-decision invariant; the theorems over whole runs. */
module SerialRuns {
  import opened Wrappers
  import opened SchemaLog
  import opened Reader
  import opened Protocol
  import opened SerialDecisions

  // ------------------------------------------------------------------
  // Steps that leave the log alone
  // ------------------------------------------------------------------

  lemma ElectKeeps<S, R, Q>(m: Machine<S, R, Q>, w: World<S, R, Q>, x: World<S, R, Q>, winner: Option<nat>)
    requires Inv(m, w) && Do(m, w, Elect(winner), x)
    ensures Inv(m, x)
  {
    assert forall o: nat :: CheckedAt(x, o) <==> CheckedAt(w, o);
    assert Calm(w.log, x.log);
    OthersStay(m, w, x, |w.nodes|);
    EntriesStay(m, w, x);
    forall n: nat | n < |w.nodes|
      ensures x.nodes[n].fenced != Some(x.generation)
    {
      assert NodeInv(m, w, n);
    }
  }

  lemma PublishedKeeps<S(!new), R(!new), Q>(m: Machine<S, R, Q>, w: World<S, R, Q>, x: World<S, R, Q>, n: nat,
          step: Step<Q>)
    requires Inv(m, w) && (step == Forget(n) || (step.Learn? && step.n == n)) && Do(m, w, step, x)
    ensures Inv(m, x)
  {
    assert NodeInv(m, w, n);
    ReaderStep(m, w, x, n);
  }

  lemma FetchKeeps<S(!new), R(!new), Q>(m: Machine<S, R, Q>, w: World<S, R, Q>, x: World<S, R, Q>, n: nat, upto: nat)
    requires Lawful(m) && Inv(m, w) && Do(m, w, FetchTo(n, upto), x)
    ensures Inv(m, x)
  {
    var r := w.nodes[n].reader;
    assert NodeInv(m, w, n);
    FetchKeepsInv(m, w.log, r, upto);
    ObserveAllEffect(r.barriers, r.observed + Tokens(w.log[r.next..upto]));
    ReaderStep(m, w, x, n);
  }

  lemma ResetKeeps<S(!new), R(!new), Q>(m: Machine<S, R, Q>, w: World<S, R, Q>, x: World<S, R, Q>, n: nat, end: nat)
    requires Lawful(m) && Inv(m, w) && Do(m, w, ResetTo(n, end), x)
    ensures Inv(m, x)
  {
    assert NodeInv(m, w, n);
    ResetKeepsInv(m, w.log, w.nodes[n].reader, end);
    ReaderStep(m, w, x, n);
  }

  lemma BeginKeeps<S, R, Q>(m: Machine<S, R, Q>, w: World<S, R, Q>, x: World<S, R, Q>, n: nat, request: Q)
    requires Inv(m, w) && Do(m, w, Begin(n, request), x)
    ensures Inv(m, x)
  {
    assert NodeInv(m, w, n);
    LocalStep(m, w, x, n);
  }

  lemma FenceSkippedKeeps<S, R, Q>(m: Machine<S, R, Q>, w: World<S, R, Q>, x: World<S, R, Q>, n: nat)
    requires Inv(m, w) && Do(m, w, Fence(n), x) && w.nodes[n].fenced == Some(w.nodes[n].phase.generation)
    ensures Inv(m, x)
  {
    assert NodeInv(m, w, n);
    LocalStep(m, w, x, n);
  }

  // A seen token's only marker lies below what the live store has folded.
  lemma SeenIsFolded<S, R, Q>(m: Machine<S, R, Q>, w: World<S, R, Q>, n: nat, token: nat, barrier: nat)
    requires n < |w.nodes| && NodeInv(m, w, n) && TokenAt(w, n, token, barrier)
    requires token in w.nodes[n].reader.barriers.seen
    ensures barrier < w.nodes[n].reader.folded
  {
    assert MarkedBefore(w.log, token, w.nodes[n].reader.folded);
  }

  lemma AwaitKeeps<S, R, Q>(m: Machine<S, R, Q>, w: World<S, R, Q>, x: World<S, R, Q>, n: nat)
    requires Inv(m, w) && Do(m, w, Await(n), x)
    ensures Inv(m, x)
  {
    hide EntryInv, OwnerInv, FenceInv, MarkersKnown;
    var p := w.nodes[n].phase;
    assert NodeInv(m, w, n);
    SeenIsFolded(m, w, n, p.token, p.barrier);
    assert Quiet(x, n, p.generation, p.barrier, []) by {
      assert forall o: nat :: CheckedAt(x, o) ==> CheckedAt(w, o) && !Driving(w, n, o);
    }
    LocalStep(m, w, x, n);
  }

  // No transaction of the node can pass the offsets check while its write is not driving one.
  lemma IdleQuiet<S, R, Q>(w: World<S, R, Q>, x: World<S, R, Q>, n: nat, g: nat, b: nat, expected: seq<R>)
    requires n < |w.nodes| == |x.nodes| && x == SetNode(w, n, x.nodes[n]) && Quiet(w, n, g, b, expected)
    requires forall o: nat :: !Driving(w, n, o)
    ensures Quiet(x, n, g, b, expected)
  {
    assert forall o: nat :: CheckedAt(x, o) ==> CheckedAt(w, o) && !Driving(w, n, o);
  }

  lemma RecheckKeeps<S, R, Q>(m: Machine<S, R, Q>, w: World<S, R, Q>, x: World<S, R, Q>, n: nat)
    requires Inv(m, w) && Do(m, w, Recheck(n), x)
    ensures Inv(m, x)
  {
    var p := w.nodes[n].phase;
    assert NodeInv(m, w, n);
    IdleQuiet(w, x, n, p.generation, p.barrier, []);
    LocalStep(m, w, x, n);
  }

  lemma LiveIsBarrierState<S, R, Q>(m: Machine<S, R, Q>, log: Log<S, R, Q>, r: Reader<S>, b: nat)
    requires ReaderInv(m, log, r) && b < r.folded && Visible(log[b..]) == []
    ensures r.live == StateAt(m, log, b)
  {
    VisibleSplit(log, b, r.folded);
    assert log[b..] == log[b..r.folded] + log[r.folded..];
    VisibleConcat(log[b..r.folded], log[r.folded..]);
    assert Visible(log[b..r.folded]) == [];
    assert Visible(log[..r.folded]) == Visible(log[..b]);
  }

  /** Every snapshot read while the generation lasts is the fold of the log at the write's barrier. */
  lemma SnapshotKeeps<S, R, Q>(m: Machine<S, R, Q>, w: World<S, R, Q>, x: World<S, R, Q>, n: nat)
    requires Inv(m, w) && Do(m, w, Snapshot(n), x)
    ensures Inv(m, x)
  {
    hide EntryInv, OwnerInv, FenceInv, MarkersKnown;
    var write := w.nodes[n].phase.write;
    assert NodeInv(m, w, n);
    IdleQuiet(w, x, n, write.generation, write.barrier, []);
    if w.generation == write.generation {
      LiveIsBarrierState(m, w.log, w.nodes[n].reader, write.barrier);
    }
    assert SnapshotsOk(m, x, n, x.nodes[n].phase.write);
    assert PhaseInv(m, x, n);
    LocalStep(m, w, x, n);
  }

  lemma DecideKeeps<S, R, Q>(m: Machine<S, R, Q>, w: World<S, R, Q>, x: World<S, R, Q>, n: nat)
    requires Inv(m, w) && Do(m, w, Decide(n), x)
    ensures Inv(m, x)
  {
    hide EntryInv, OwnerInv, FenceInv, MarkersKnown;
    var write := w.nodes[n].phase.write;
    assert NodeInv(m, w, n);
    IdleQuiet(w, x, n, write.generation, write.barrier, []);
    assert forall o: nat :: !Driving(x, n, o);
    LocalStep(m, w, x, n);
  }

  lemma BeginTransactionKeeps<S, R, Q>(m: Machine<S, R, Q>, w: World<S, R, Q>, x: World<S, R, Q>, n: nat)
    requires Inv(m, w) && Do(m, w, BeginTransaction(n), x)
    ensures Inv(m, x)
  {
    hide EntryInv, OwnerInv, FenceInv, MarkersKnown;
    var p := w.nodes[n].phase;
    assert NodeInv(m, w, n);
    assert forall o: nat :: !Driving(w, n, o) && !Driving(x, n, o);
    IdleQuiet(w, x, n, p.write.generation, p.write.barrier, p.todo[..p.done]);
    LocalStep(m, w, x, n);
  }

  lemma UndrivenPhase<S, R, Q>(m: Machine<S, R, Q>, w: World<S, R, Q>, x: World<S, R, Q>, n: nat)
    requires n < |w.nodes| == |x.nodes| && x == SetNode(w, n, w.nodes[n].(transaction := NoTransaction))
    requires PhaseInv(m, w, n)
    requires forall o: nat :: !Driving(w, n, o)
    ensures PhaseInv(m, x, n)
  {
    assert forall o: nat :: !Driving(x, n, o);
    match w.nodes[n].phase
    case Waiting(g, _, _, b) => IdleQuiet(w, x, n, g, b, []);
    case Checking(g, _, b) => IdleQuiet(w, x, n, g, b, []);
    case Reading(write) => IdleQuiet(w, x, n, write.generation, write.barrier, []);
    case Writing(write, todo, done, _) =>
      IdleQuiet(w, x, n, write.generation, write.barrier, todo[..done]);
      assert SnapshotsOk(m, x, n, write);
    case _ =>
  }

  lemma DropSendKeeps<S, R, Q>(m: Machine<S, R, Q>, w: World<S, R, Q>, x: World<S, R, Q>, n: nat)
    requires Inv(m, w) && Do(m, w, DropSend(n), x)
    ensures Inv(m, x)
  {
    assert NodeInv(m, w, n);
    UndrivenPhase(m, w, x, n);
    LocalStep(m, w, x, n);
  }

  lemma NextKeeps<S, R, Q>(m: Machine<S, R, Q>, w: World<S, R, Q>, x: World<S, R, Q>, n: nat)
    requires Inv(m, w) && Do(m, w, Next(n), x)
    ensures Inv(m, x)
  {
    hide EntryInv, OwnerInv, FenceInv, MarkersKnown;
    var p, o := w.nodes[n].phase, w.nodes[n].transaction.offset;
    assert NodeInv(m, w, n);
    assert Driving(w, n, o) && Progress(w, n) == p.done + 1;
    assert forall i: nat :: CheckedAt(w, i) ==> !Driving(w, n, i);
    assert Quiet(x, n, p.write.generation, p.write.barrier, p.todo[..p.done + 1]);
    assert LandedBefore(w.log, p.write, p.todo, p.done, |w.log|) by {
      assert w.log[o] == Txn(p.todo[p.done], Committed, p.write, p.done);
    }
    LocalStep(m, w, x, n);
  }

  lemma ConfirmKeeps<S, R, Q>(m: Machine<S, R, Q>, w: World<S, R, Q>, x: World<S, R, Q>, n: nat)
    requires Inv(m, w) && Do(m, w, Confirm(n), x)
    ensures Inv(m, x)
  {
    hide EntryInv, OwnerInv, FenceInv, MarkersKnown, Quiet, Gated, SnapshotsOk, Fold, Visible;
    var p := w.nodes[n].phase;
    assert NodeInv(m, w, n);
    SeenIsFolded(m, w, n, p.token, p.barrier);
    forall k: nat | k < |p.todo|
      ensures LandedBefore(x.log, p.write, p.todo, k, x.nodes[n].reader.folded)
    {
      LandedStays(w.log, x.log, p.write, p.todo, k, p.barrier, x.nodes[n].reader.folded);
    }
    LocalStep(m, w, x, n);
  }

  lemma AbandonKeeps<S, R, Q>(m: Machine<S, R, Q>, w: World<S, R, Q>, x: World<S, R, Q>, n: nat)
    requires Inv(m, w) && Do(m, w, Abandon(n), x)
    ensures Inv(m, x)
  {
    hide EntryInv, OwnerInv, FenceInv, MarkersKnown;
    assert NodeInv(m, w, n);
    LocalStep(m, w, x, n);
  }

  // ------------------------------------------------------------------
  // Steps that append to the log or resolve transactions
  // ------------------------------------------------------------------

  lemma AbortedIsCalm<S, R, Q>(log: Log<S, R, Q>)
    ensures Calm(log, AbortOpen(log))
    ensures forall i :: 0 <= i < |log| && AbortOpen(log)[i].Txn? ==> !AbortOpen(log)[i].status.Open?
  {}

  /** A new epoch aborts every open transaction, whichever node it belongs to. */
  lemma InitialisedKeepsRest<S, R, Q>(m: Machine<S, R, Q>, w: World<S, R, Q>, x: World<S, R, Q>, n: nat,
          fenced: Option<nat>, phase: Phase<S, R, Q>)
    requires Inv(m, w) && n < |w.nodes| && x == Initialised(w, n, fenced, phase)
    ensures OwnerInv(x) && FenceInv(x) && MarkersKnown(x) && CalmStep(w, x, n)
    ensures forall o: nat :: o < |x.log| ==> EntryInv(m, x, o)
    ensures forall k: nat :: k < |w.nodes| && k != n ==> NodeInv(m, x, k)
    ensures forall o: nat :: !OpenAt(x, o)
    ensures ReaderInv(m, x.log, x.nodes[n].reader)
  {
    AbortedIsCalm(w.log);
    assert forall o: nat :: !OpenAt(x, o);
    OthersStay(m, w, x, n);
    forall o: nat | o < |x.log|
      ensures EntryInv(m, x, o)
    {
      assert EntryInv(m, w, o);
      EntryStays(m, w, x, o);
    }
    assert NodeInv(m, w, n);
    ReaderInvEvolves(m, w.log, x.log, w.nodes[n].reader);
  }

  lemma FenceInitKeeps<S, R, Q>(m: Machine<S, R, Q>, w: World<S, R, Q>, x: World<S, R, Q>, n: nat)
    requires Inv(m, w) && Do(m, w, Fence(n), x) && w.nodes[n].fenced != Some(w.nodes[n].phase.generation)
    ensures Inv(m, x)
  {
    var p := w.nodes[n].phase;
    InitialisedKeepsRest(m, w, x, n, Some(p.generation), Ordering(p.generation, p.request));
    assert NodeInv(m, w, n);
    assert NodeInv(m, x, n);
  }

  lemma LateInitKeeps<S, R, Q>(m: Machine<S, R, Q>, w: World<S, R, Q>, x: World<S, R, Q>, n: nat)
    requires Inv(m, w) && Do(m, w, LateInit(n), x)
    ensures Inv(m, x)
  {
    InitialisedKeepsRest(m, w, x, n, w.nodes[n].fenced, w.nodes[n].phase);
    assert NodeInv(m, w, n);
    CalmQuiet(m, w, x, n);
    NodeStays(m, w, x, n);
  }

  // Appending a marker leaves everything below it alone.
  lemma MarkerKeepsRest<S, R, Q>(m: Machine<S, R, Q>, w: World<S, R, Q>, x: World<S, R, Q>, n: nat, token: nat)
    requires Inv(m, w) && Onward(w, x) && x.log == w.log + [Marker(token)] && token < x.nextToken
    requires x.epoch == w.epoch && x.generation == w.generation
    requires forall k: nat :: k < |w.nodes| ==>
               && x.nodes[k].epoch == w.nodes[k].epoch && x.nodes[k].transaction == w.nodes[k].transaction
               && x.nodes[k].fenced == w.nodes[k].fenced
    requires forall k: nat :: k < |w.nodes| && k != n ==>
          x.nodes[k] == w.nodes[k] && token !in w.nodes[k].reader.barriers.pending
    ensures OwnerInv(x) && FenceInv(x) && MarkersKnown(x)
    ensures forall o: nat :: o < |x.log| ==> EntryInv(m, x, o)
    ensures forall k: nat :: k < |w.nodes| && k != n ==> NodeInv(m, x, k)
    ensures Calm(w.log, x.log) && forall o: nat :: CheckedAt(x, o) <==> CheckedAt(w, o)
  {
    assert forall o: nat :: CheckedAt(x, o) <==> CheckedAt(w, o);
    OthersStay(m, w, x, n);
    forall o: nat | o < |x.log|
      ensures EntryInv(m, x, o)
    {
      if o < |w.log| {
        assert EntryInv(m, w, o);
        EntryStays(m, w, x, o);
      }
    }
  }

  lemma StrayMarkerKeeps<S, R, Q>(m: Machine<S, R, Q>, w: World<S, R, Q>, x: World<S, R, Q>, token: nat)
    requires Inv(m, w) && Do(m, w, StrayMarker(token), x)
    ensures Inv(m, x)
  {
    MarkerKeepsRest(m, w, x, |w.nodes|, token);
  }

  // A freshly reserved token has exactly one marker, at the end of the log.
  lemma OrderedKeeps<S, R, Q>(m: Machine<S, R, Q>, w: World<S, R, Q>, x: World<S, R, Q>, n: nat, phase: Phase<S, R, Q>)
    requires Inv(m, w) && n < |w.nodes| && x == Ordered(w, n, phase)
    requires TokenAt(x, n, w.nextToken, |w.log|) && Quiet(x, n, w.generation, |w.log|, []) ==> PhaseInv(m, x, n)
    ensures Inv(m, x)
  {
    hide OwnerInv, FenceInv, EntryInv, Fold, PhaseInv;
    forall k: nat | k < |w.nodes|
      ensures w.nextToken !in w.nodes[k].reader.barriers.pending
    {
      assert NodeInv(m, w, k);
    }
    MarkerKeepsRest(m, w, x, n, w.nextToken);
    assert NodeInv(m, w, n);
    ReaderInvEvolves(m, w.log, x.log, w.nodes[n].reader);
    assert x.log[|w.log|..] == [Marker(w.nextToken)];
    assert TokenAt(x, n, w.nextToken, |w.log|);
    NothingVisible(x.log[|w.log|..]);
    assert Quiet(x, n, w.generation, |w.log|, []);
    assert NodeInv(m, x, n);
  }

  lemma OrderKeeps<S, R, Q>(m: Machine<S, R, Q>, w: World<S, R, Q>, x: World<S, R, Q>, n: nat)
    requires Inv(m, w) && Do(m, w, Order(n), x)
    ensures Inv(m, x)
  {
    var p := w.nodes[n].phase;
    assert NodeInv(m, w, n);
    assert Quiet(x, n, w.generation, |w.log|, []) ==> Quiet(x, n, p.generation, |w.log|, []);
    OrderedKeeps(m, w, x, n, x.nodes[n].phase);
  }

  lemma OrderConfirmationKeeps<S, R, Q>(m: Machine<S, R, Q>, w: World<S, R, Q>, x: World<S, R, Q>, n: nat)
    requires Inv(m, w) && Do(m, w, OrderConfirmation(n), x)
    ensures Inv(m, x)
  {
    var p := w.nodes[n].phase;
    assert NodeInv(m, w, n);
    forall k: nat | k < |p.todo|
      ensures LandedBefore(x.log, p.write, p.todo, k, |w.log|)
    {
      LandedStays(w.log, x.log, p.write, p.todo, k, |w.log|, |w.log|);
    }
    OrderedKeeps(m, w, x, n, x.nodes[n].phase);
  }

  /** Only the owner of the current epoch can append, and it has no other open transaction. */
  lemma AppendFindsNoneOpen<S, R, Q>(m: Machine<S, R, Q>, w: World<S, R, Q>, x: World<S, R, Q>, n: nat)
    requires Inv(m, w) && Do(m, w, Append(n), x)
    ensures forall o: nat :: !OpenAt(w, o)
  {
    assert NodeInv(m, w, n);
    forall o: nat | o < |w.log|
      ensures !OpenAt(w, o)
    {
      var owned := EntryInv(m, w, o);
      assert owned;
    }
  }

  lemma AppendKeeps<S, R, Q>(m: Machine<S, R, Q>, w: World<S, R, Q>, x: World<S, R, Q>, n: nat)
    requires Inv(m, w) && Do(m, w, Append(n), x)
    ensures Inv(m, x)
  {
    hide ReaderInv, PhaseInv, SerialAt;
    AppendFindsNoneOpen(m, w, x, n);
    assert NodeInv(m, w, n);
    forall o: nat
      ensures !CheckedAt(x, o)
    {
      assert o < |w.log| ==> x.log[o] == w.log[o] && !OpenAt(w, o);
    }
    assert Calm(w.log, x.log);
    OthersStay(m, w, x, n);
    forall o: nat | o < |x.log|
      ensures EntryInv(m, x, o)
    {
      if o < |w.log| {
        assert EntryInv(m, w, o);
        EntryStays(m, w, x, o);
      }
    }
    AppenderStays(m, w, x, n);
  }

  lemma AppenderQuiet<S, R, Q>(w: World<S, R, Q>, x: World<S, R, Q>, n: nat, g: nat, b: nat, expected: seq<R>)
    requires n < |w.nodes| && Onward(w, x) && x.generation == w.generation && Calm(w.log, x.log)
    requires Quiet(w, n, g, b, expected) && forall o: nat :: !CheckedAt(x, o)
    ensures Quiet(x, n, g, b, expected)
  {
    CalmVisible(w.log, x.log, b);
  }

  lemma AppenderWriting<S, R, Q>(m: Machine<S, R, Q>, w: World<S, R, Q>, x: World<S, R, Q>, n: nat)
    requires n < |w.nodes| && Do(m, w, Append(n), x) && Calm(w.log, x.log) && forall o: nat :: !CheckedAt(x, o)
    requires w.nodes[n].phase.Writing? && PhaseInv(m, w, n)
    ensures PhaseQuiet(w, x, n)
  {
    var p := w.nodes[n].phase;
    assert forall o: nat :: !Driving(w, n, o);
    assert forall o: nat :: Driving(x, n, o) ==> !x.log[o].status.Committed?;
    AppenderQuiet(w, x, n, p.write.generation, p.write.barrier, p.todo[..p.done]);
  }

  lemma AppenderStays<S, R, Q>(m: Machine<S, R, Q>, w: World<S, R, Q>, x: World<S, R, Q>, n: nat)
    requires n < |w.nodes| && NodeInv(m, w, n) && Do(m, w, Append(n), x) && Calm(w.log, x.log)
    requires forall o: nat :: !CheckedAt(x, o)
    ensures NodeInv(m, x, n)
  {
    hide SerialAt, SnapshotsOk, LandedBefore;
    match w.nodes[n].phase {
      case Waiting(g, _, _, b) => AppenderQuiet(w, x, n, g, b, []);
      case Checking(g, _, b) => AppenderQuiet(w, x, n, g, b, []);
      case Reading(write) => AppenderQuiet(w, x, n, write.generation, write.barrier, []);
      case Writing(_, _, _, _) => AppenderWriting(m, w, x, n);
      case _ =>
    }
    ReaderInvEvolves(m, w.log, x.log, w.nodes[n].reader);
    NodeStays(m, w, x, n);
  }

  // ------------------------------------------------------------------
  // Steps on an open transaction
  // ------------------------------------------------------------------

  // The status of one open transaction changes; nothing else does.
  lemma StatusKeepsEntries<S, R, Q>(m: Machine<S, R, Q>, w: World<S, R, Q>, x: World<S, R, Q>, o: nat, status: Status)
    requires Inv(m, w) && OpenAt(w, o) && x == w.(log := SetStatus(w.log, o, status))
    requires status.Open? ==> (status.requested ==> status.checked)
    requires status.Committed? || (status.Open? && status.checked) ==> SerialAt(m, w.log, o)
    ensures Evolves(w.log, x.log)
    ensures forall i: nat :: i < |x.log| ==> EntryInv(m, x, i)
  {
    forall i: nat | i < |x.log|
      ensures EntryInv(m, x, i)
    {
      assert EntryInv(m, w, i);
      EntryStays(m, w, x, i);
    }
  }

  lemma AbortAtKeeps<S, R, Q>(m: Machine<S, R, Q>, w: World<S, R, Q>, x: World<S, R, Q>, o: nat)
    requires Inv(m, w) && Do(m, w, AbortAt(o), x)
    ensures Inv(m, x)
  {
    StatusKeepsEntries(m, w, x, o, Aborted);
    assert forall i: nat :: CheckedAt(x, i) ==> CheckedAt(w, i);
    OthersStay(m, w, x, |w.nodes|);
  }

  lemma RequestCommitKeeps<S, R, Q>(m: Machine<S, R, Q>, w: World<S, R, Q>, x: World<S, R, Q>, n: nat)
    requires Inv(m, w) && Do(m, w, RequestCommit(n), x)
    ensures Inv(m, x)
  {
    var o := w.nodes[n].transaction.offset;
    assert EntryInv(m, w, o);
    StatusKeepsEntries(m, w, x, o, Open(true, true));
    assert forall i: nat :: CheckedAt(x, i) ==> CheckedAt(w, i);
    OthersStay(m, w, x, |w.nodes|);
  }

  /** When the offsets request finds the write's generation still current, nothing but the write's
      own records was committed since its barrier. */
  lemma CheckedIsSerial<S, R, Q>(m: Machine<S, R, Q>, w: World<S, R, Q>, n: nat, o: nat)
    requires Inv(m, w) && OpenAt(w, o) && Driving(w, n, o) && w.nodes[n].phase.write.generation == w.generation
    ensures SerialAt(m, w.log, o)
  {
    hide ReaderInv, OwnerInv, FenceInv, MarkersKnown, TokenAt, LandedBefore;
    var p := w.nodes[n].phase;
    var b := p.write.barrier;
    assert NodeInv(m, w, n) && EntryInv(m, w, o);
    assert Progress(w, n) == p.done;
    NothingVisible(w.log[o..]);
    assert w.log[b..] == w.log[b..o] + w.log[o..];
    VisibleConcat(w.log[b..o], w.log[o..]);
    VisibleSplit(w.log, b, o);
  }

  lemma {:induction false} NothingVisible<S, R, Q>(log: Log<S, R, Q>)
    requires forall i :: 0 <= i < |log| && log[i].Txn? ==> !log[i].status.Committed?
    ensures Visible(log) == []
  {
    if log != [] {
      NothingVisible(log[..|log| - 1]);
    }
  }

  lemma SendOffsetsFence<S, R, Q>(m: Machine<S, R, Q>, w: World<S, R, Q>, x: World<S, R, Q>, n: nat)
    requires Inv(m, w) && Do(m, w, SendOffsets(n), x)
    ensures FenceInv(x) && MarkersKnown(x)
  {
    hide ReaderInv, SerialAt, OwnerInv;
    var o := w.nodes[n].transaction.offset;
    assert NodeInv(m, w, n);
    assert forall i: nat :: CheckedAt(x, i) ==> i == o || (CheckedAt(w, i) && x.log[i] == w.log[i]);
  }

  lemma SendOffsetsKeeps<S, R, Q>(m: Machine<S, R, Q>, w: World<S, R, Q>, x: World<S, R, Q>, n: nat)
    requires Inv(m, w) && Do(m, w, SendOffsets(n), x)
    ensures Inv(m, x)
  {
    hide NodeInv, FenceInv, MarkersKnown, EntryInv, Evolves;
    var o := w.nodes[n].transaction.offset;
    CheckedIsSerial(m, w, n, o);
    StatusKeepsEntries(m, w, x, o, Open(true, false));
    SendOffsetsNodes(m, w, x, n, o);
    SendOffsetsFence(m, w, x, n);
  }

  lemma SendOffsetsNodes<S, R, Q>(m: Machine<S, R, Q>, w: World<S, R, Q>, x: World<S, R, Q>, n: nat, o: nat)
    requires Inv(m, w) && n < |w.nodes| && OpenAt(w, o) && Driving(w, n, o)
    requires x == w.(log := SetStatus(w.log, o, Open(true, false)))
    ensures forall k: nat :: k < |w.nodes| ==> NodeInv(m, x, k)
  {
    assert NodeInv(m, w, n) && EntryInv(m, w, o);
    assert forall i: nat :: CheckedAt(x, i) ==> CheckedAt(w, i) || i == o;
    OthersStay(m, w, x, n);
    DriverStays(m, w, x, n, o);
  }

  lemma DriverStays<S, R, Q>(m: Machine<S, R, Q>, w: World<S, R, Q>, x: World<S, R, Q>, n: nat, o: nat)
    requires n < |w.nodes| && NodeInv(m, w, n) && OpenAt(w, o) && Driving(w, n, o)
    requires x == w.(log := SetStatus(w.log, o, Open(true, false)))
    ensures NodeInv(m, x, n)
  {
    assert forall i: nat :: CheckedAt(x, i) ==> CheckedAt(w, i) || i == o;
    assert Driving(x, n, o);
    ReaderInvEvolves(m, w.log, x.log, w.nodes[n].reader);
    CalmQuiet(m, w, x, n);
    NodeStays(m, w, x, n);
  }

  // A commit above a node's barrier, in the generation that node has fenced, is the node's own.
  lemma CommitIsOwn<S, R, Q>(m: Machine<S, R, Q>, w: World<S, R, Q>, n: nat, o: nat, g: nat, b: nat, expected: seq<R>)
    requires Inv(m, w) && n < |w.nodes| && CheckedAt(w, o) && Gated(w, n, g) && w.generation == g && b < o
    requires Quiet(w, n, g, b, expected)
    ensures Driving(w, n, o)
  {
    assert EntryInv(m, w, o);
    assert w.log[o].write.generation == g;
  }

  lemma CommittedTail<S, R, Q>(a: Log<S, R, Q>, o: nat, b: nat)
    requires o < |a| && a[o].Txn? && a[o].status.Open? && b <= |a| && (forall i :: o < i < |a| ==> a[i].Marker?)
    ensures Visible(SetStatus(a, o, Committed)[b..]) == Visible(a[b..]) + if b <= o then [a[o].record] else []
  {
    var c := SetStatus(a, o, Committed);
    if b <= o {
      assert a[b..] == a[b..o] + ([a[o]] + a[o + 1..]);
      assert c[b..] == a[b..o] + ([c[o]] + a[o + 1..]);
      VisibleConcat(a[b..o], [a[o]] + a[o + 1..]);
      VisibleConcat(a[b..o], [c[o]] + a[o + 1..]);
      VisibleConcat([a[o]], a[o + 1..]);
      VisibleConcat([c[o]], a[o + 1..]);
      NothingVisible(a[o + 1..]);
    } else {
      assert c[b..] == a[b..];
    }
  }

  lemma CommitQuiet<S, R, Q>(m: Machine<S, R, Q>, w: World<S, R, Q>, x: World<S, R, Q>, n: nat, o: nat)
    requires Inv(m, w) && Do(m, w, CommitAt(o), x) && n < |w.nodes|
    ensures PhaseQuiet(w, x, n)
  {
    assert NodeInv(m, w, n) && EntryInv(m, w, o);
    assert CheckedAt(w, o);
    match w.nodes[n].phase
    case Waiting(g, _, _, b) => CommitQuietIdle(m, w, x, n, o, g, b);
    case Checking(g, _, b) => CommitQuietIdle(m, w, x, n, o, g, b);
    case Reading(write) => CommitQuietIdle(m, w, x, n, o, write.generation, write.barrier);
    case Writing(write, todo, _, _) => CommitQuietWriting(m, w, x, n, o);
    case _ =>
  }

  lemma CommitQuietIdle<S, R, Q>(m: Machine<S, R, Q>, w: World<S, R, Q>, x: World<S, R, Q>, n: nat, o: nat, g: nat,
          b: nat)
    requires Inv(m, w) && Do(m, w, CommitAt(o), x) && n < |w.nodes| && !w.nodes[n].phase.Writing?
    requires Gated(w, n, g) && Quiet(w, n, g, b, []) && CheckedAt(w, o)
    ensures Quiet(x, n, g, b, [])
  {
    assert EntryInv(m, w, o);
    if w.generation == g {
      if b < o {
        CommitIsOwn(m, w, n, o, g, b, []);
      }
      CommittedTail(w.log, o, b);
    }
    assert forall i: nat :: CheckedAt(x, i) ==> CheckedAt(w, i) && !Driving(w, n, i);
  }

  lemma CommitQuietWriting<S, R, Q>(m: Machine<S, R, Q>, w: World<S, R, Q>, x: World<S, R, Q>, n: nat, o: nat)
    requires Inv(m, w) && Do(m, w, CommitAt(o), x) && n < |w.nodes| && w.nodes[n].phase.Writing? && CheckedAt(w, o)
    ensures PhaseQuiet(w, x, n)
  {
    hide ReaderInv, SnapshotsOk, OwnerInv, MarkersKnown;
    var p := w.nodes[n].phase;
    var g, b := p.write.generation, p.write.barrier;
    assert NodeInv(m, w, n) && EntryInv(m, w, o);
    assert forall i: nat :: Driving(x, n, i) <==> Driving(w, n, i);
    if Driving(w, n, o) {
      assert Progress(w, n) == p.done && Progress(x, n) == p.done + 1;
      assert p.todo[..p.done + 1] == p.todo[..p.done] + [p.todo[p.done]];
    } else {
      assert forall i: nat :: Driving(x, n, i) ==> x.log[i] == w.log[i];
      assert Progress(x, n) == Progress(w, n);
    }
    if w.generation == g {
      if b < o {
        CommitIsOwn(m, w, n, o, g, b, p.todo[..Progress(w, n)]);
      }
      CommittedTail(w.log, o, b);
    }
    assert forall i: nat :: CheckedAt(x, i) ==> CheckedAt(w, i);
  }

  lemma CommitAtKeeps<S, R, Q>(m: Machine<S, R, Q>, w: World<S, R, Q>, x: World<S, R, Q>, o: nat)
    requires Inv(m, w) && Do(m, w, CommitAt(o), x)
    ensures Inv(m, x)
  {
    assert EntryInv(m, w, o);
    StatusKeepsEntries(m, w, x, o, Committed);
    assert forall i: nat :: CheckedAt(x, i) ==> CheckedAt(w, i);
    forall n: nat | n < |w.nodes|
      ensures NodeInv(m, x, n)
    {
      assert NodeInv(m, w, n);
      CommitQuiet(m, w, x, n, o);
      ReaderInvEvolves(m, w.log, x.log, w.nodes[n].reader);
      NodeStays(m, w, x, n);
    }
  }

  // ------------------------------------------------------------------
  // Whole runs
  // ------------------------------------------------------------------

  lemma InitHolds<S, R, Q>(m: Machine<S, R, Q>, w: World<S, R, Q>)
    requires Init(m, w)
    ensures Inv(m, w)
  {
    assert forall o: nat :: !OpenAt(w, o);
    forall n: nat | n < |w.nodes|
      ensures NodeInv(m, w, n)
    {
      assert w.log[..0] == [];
    }
  }

  lemma FenceKeeps<S, R, Q>(m: Machine<S, R, Q>, w: World<S, R, Q>, x: World<S, R, Q>, n: nat)
    requires Inv(m, w) && Do(m, w, Fence(n), x)
    ensures Inv(m, x)
  {
    hide Inv;
    if w.nodes[n].fenced == Some(w.nodes[n].phase.generation) {
      FenceSkippedKeeps(m, w, x, n);
    } else {
      FenceInitKeeps(m, w, x, n);
    }
  }

  // Steps that touch no transaction.
  predicate Unhurried<Q>(step: Step<Q>) {
    match step
    case Append(_) => false
    case DropSend(_) => false
    case SendOffsets(_) => false
    case RequestCommit(_) => false
    case CommitAt(_) => false
    case AbortAt(_) => false
    case Next(_) => false
    case OrderConfirmation(_) => false
    case Confirm(_) => false
    case BeginTransaction(_) => false
    case _ => true
  }

  lemma UnhurriedKeeps<S(!new), R(!new), Q>(m: Machine<S, R, Q>, w: World<S, R, Q>, step: Step<Q>, x: World<S, R, Q>)
    requires Lawful(m) && Inv(m, w) && Do(m, w, step, x) && Unhurried(step)
    ensures Inv(m, x)
  {
    hide Inv, Do, Lawful;
    match step
    case Elect(winner) => ElectKeeps(m, w, x, winner);
    case Learn(n, _) => PublishedKeeps(m, w, x, n, step);
    case Forget(n) => PublishedKeeps(m, w, x, n, step);
    case Begin(n, request) => BeginKeeps(m, w, x, n, request);
    case Fence(n) => FenceKeeps(m, w, x, n);
    case LateInit(n) => LateInitKeeps(m, w, x, n);
    case Order(n) => OrderKeeps(m, w, x, n);
    case StrayMarker(token) => StrayMarkerKeeps(m, w, x, token);
    case Await(n) => AwaitKeeps(m, w, x, n);
    case Recheck(n) => RecheckKeeps(m, w, x, n);
    case Snapshot(n) => SnapshotKeeps(m, w, x, n);
    case Decide(n) => DecideKeeps(m, w, x, n);
    case Abandon(n) => AbandonKeeps(m, w, x, n);
    case FetchTo(n, upto) => FetchKeeps(m, w, x, n, upto);
    case ResetTo(n, end) => ResetKeeps(m, w, x, n, end);
  }

  /** Every step keeps the invariant. */
  lemma StepKeeps<S(!new), R(!new), Q>(m: Machine<S, R, Q>, w: World<S, R, Q>, step: Step<Q>, x: World<S, R, Q>)
    requires Lawful(m) && Inv(m, w) && Do(m, w, step, x)
    ensures Inv(m, x)
  {
    hide Inv, Do, Lawful;
    match step
    case BeginTransaction(n) => BeginTransactionKeeps(m, w, x, n);
    case Append(n) => AppendKeeps(m, w, x, n);
    case DropSend(n) => DropSendKeeps(m, w, x, n);
    case SendOffsets(n) => SendOffsetsKeeps(m, w, x, n);
    case RequestCommit(n) => RequestCommitKeeps(m, w, x, n);
    case CommitAt(o) => CommitAtKeeps(m, w, x, o);
    case AbortAt(o) => AbortAtKeeps(m, w, x, o);
    case Next(n) => NextKeeps(m, w, x, n);
    case OrderConfirmation(n) => OrderConfirmationKeeps(m, w, x, n);
    case Confirm(n) => ConfirmKeeps(m, w, x, n);
    case _ => UnhurriedKeeps(m, w, step, x);
  }

  lemma {:induction false} RunKeeps<S(!new), R(!new), Q>(m: Machine<S, R, Q>, run: seq<World<S, R, Q>>,
          steps: seq<Step<Q>>, i: nat)
    requires Lawful(m) && IsRun(m, run, steps) && i < |run|
    ensures Inv(m, run[i])
  {
    if i == 0 {
      InitHolds(m, run[0]);
    } else {
      RunKeeps(m, run, steps, i - 1);
      StepKeeps(m, run[i - 1], steps[i - 1], run[i]);
    }
  }

  /** In every world of every run, each committed record was decided from exactly the fold of the
      records committed before its write, and continues that write's plan without a gap. */
  lemma CommittedIsSerial<S(!new), R(!new), Q>(m: Machine<S, R, Q>, run: seq<World<S, R, Q>>, steps: seq<Step<Q>>,
          i: nat, o: nat)
    requires Lawful(m) && IsRun(m, run, steps) && i < |run|
    requires o < |run[i].log| && run[i].log[o].Txn? && run[i].log[o].status.Committed?
    ensures SerialAt(m, run[i].log, o)
  {
    RunKeeps(m, run, steps, i);
    assert EntryInv(m, run[i], o);
  }

  /** A committed log is built by whole or partial writes, each allowed by `ok` and planned from
      snapshots that all equal the fold of everything before the write. */
  ghost predicate Serial<S(!new), R, Q(!new)>(m: Machine<S, R, Q>, ok: (Q, S) -> bool, records: seq<R>) {
    records == [] ||
    exists q: Q, snapshots: seq<S>, p: nat :: SerialFrom(m, ok, records, q, snapshots, p) && Serial(m, ok, records[..p])
  }

  ghost predicate SerialFrom<S, R, Q>(m: Machine<S, R, Q>, ok: (Q, S) -> bool, records: seq<R>, q: Q, snapshots: seq<S>,
          p: nat) {
    && p < |records| && records[p..] <= m.plan(q, snapshots) && ok(q, Fold(m, m.init, records[..p]))
    && forall s <- snapshots :: s == Fold(m, m.init, records[..p])
  }

  /** Each write with a committed record was allowed in the state it was decided from. */
  ghost predicate Allowed<S, R, Q>(m: Machine<S, R, Q>, ok: (Q, S) -> bool, log: Log<S, R, Q>) {
    forall o | 0 <= o < |log| && log[o].Txn? && log[o].status.Committed? && log[o].write.barrier <= |log| ::
      ok(log[o].write.request, StateAt(m, log, log[o].write.barrier))
  }

  lemma {:induction false} LogIsSerial<S(!new), R(!new), Q(!new)>(m: Machine<S, R, Q>, ok: (Q, S) -> bool,
          w: World<S, R, Q>, p: nat)
    requires Inv(m, w) && Allowed(m, ok, w.log) && p <= |w.log|
    ensures Serial(m, ok, Visible(w.log[..p]))
    decreases p
  {
    if p > 0 {
      var o := p - 1;
      assert w.log[..p][..o] == w.log[..o];
      if w.log[o].Txn? && w.log[o].status.Committed? {
        assert EntryInv(m, w, o);
        var e := w.log[o];
        var prior := Visible(w.log[..e.write.barrier]);
        var plan := m.plan(e.write.request, e.write.snapshots);
        LogIsSerial(m, ok, w, e.write.barrier);
        var records := Visible(w.log[..p]);
        assert records == prior + plan[..e.index + 1];
        assert records[..|prior|] == prior && records[|prior|..] == plan[..e.index + 1];
        assert SerialFrom(m, ok, records, e.write.request, e.write.snapshots, |prior|);
      } else {
        LogIsSerial(m, ok, w, o);
        assert Visible(w.log[..p]) == Visible(w.log[..o]);
      }
    }
  }

  /** The committed log of every world of every run is serial. */
  lemma RunIsSerial<S(!new), R(!new), Q(!new)>(m: Machine<S, R, Q>, ok: (Q, S) -> bool, run: seq<World<S, R, Q>>,
          steps: seq<Step<Q>>, i: nat)
    requires Lawful(m) && IsRun(m, run, steps) && i < |run| && Allowed(m, ok, run[i].log)
    ensures Serial(m, ok, Visible(run[i].log))
  {
    RunKeeps(m, run, steps, i);
    LogIsSerial(m, ok, run[i], |run[i].log|);
    assert run[i].log[..|run[i].log|] == run[i].log;
  }

  ghost predicate WriteKeeps<S, R, Q>(m: Machine<S, R, Q>, ok: (Q, S) -> bool, inv: seq<R> -> bool, prior: seq<R>,
          q: Q, snapshots: seq<S>, k: nat) {
    && inv(prior) && ok(q, Fold(m, m.init, prior)) && k <= |m.plan(q, snapshots)|
    && (forall s <- snapshots :: s == Fold(m, m.init, prior))
    ==> inv(prior + m.plan(q, snapshots)[..k])
  }

  /** What every partial write keeps, when it is planned from the fold of the log before it, holds
      of every serial log. */
  lemma {:induction false} SerialInduction<S(!new), R(!new), Q(!new)>(m: Machine<S, R, Q>, ok: (Q, S) -> bool,
          inv: seq<R> -> bool, records: seq<R>)
    requires Serial(m, ok, records) && inv([])
    requires forall prior, q, snapshots, k :: WriteKeeps(m, ok, inv, prior, q, snapshots, k)
    ensures inv(records)
    decreases |records|
  {
    if records != [] {
      var q, snapshots, p: nat :| SerialFrom(m, ok, records, q, snapshots, p) && Serial(m, ok, records[..p]);
      SerialInduction(m, ok, inv, records[..p]);
      assert WriteKeeps(m, ok, inv, records[..p], q, snapshots, |records| - p);
      assert records == records[..p] + m.plan(q, snapshots)[..|records| - p];
    }
  }

  /** A write that returns has all its records in the local store: the live store is the fold of a
      stable prefix of the log that contains each of them, committed. */
  lemma ReturnedIsVisible<S(!new), R(!new), Q>(m: Machine<S, R, Q>, run: seq<World<S, R, Q>>, steps: seq<Step<Q>>,
          i: nat, n: nat, k: nat)
    requires Lawful(m) && IsRun(m, run, steps) && i < |run| && n < |run[i].nodes|
    requires run[i].nodes[n].phase.Returned? && k < |run[i].nodes[n].phase.todo|
    ensures var node := run[i].nodes[n];
            && node.reader.folded <= |run[i].log| && node.reader.live == StateAt(m, run[i].log, node.reader.folded)
            && LandedBefore(run[i].log, node.phase.write, node.phase.todo, k, node.reader.folded)
  {
    RunKeeps(m, run, steps, i);
    assert NodeInv(m, run[i], n);
  }
}

/** A primary whose producer was replaced after it fenced its generation, and when a write completes at all. */
module StalledWrites {
  import opened Wrappers
  import opened SchemaLog
  import opened Reader
  import opened Protocol
  import opened SerialDecisions
  import opened SerialRuns
  import opened PublishedWrites
  import opened WriteProgress

  // ------------------------------------------------------------------
  // A producer that was replaced
  // ------------------------------------------------------------------

  /** The node fenced the current generation, and its producer has been replaced since: `fence` does not
      initialise a generation twice. */
  ghost predicate Stalled<S, R, Q>(w: World<S, R, Q>, n: nat) {
    && n < |w.nodes| && w.nodes[n].fenced == Some(w.generation)
    && w.nodes[n].epoch <= w.epoch && !(0 < w.nodes[n].epoch == w.epoch)
    && (w.nodes[n].primary.Some? ==> w.nodes[n].primary.value == w.generation)
    && (w.nodes[n].phase.Fencing? ==> w.nodes[n].phase.generation == w.generation)
    && (w.nodes[n].transaction.Sending? ==> w.nodes[n].transaction.epoch <= w.nodes[n].epoch)
  }

  /** No election, no initialisation by the node, and it is not told of an older generation. */
  predicate Unhelpful<Q>(n: nat, generation: nat, step: Step<Q>) {
    match step
    case Elect(_) => false
    case LateInit(k) => k != n
    case Learn(k, g) => k != n || g == generation
    case _ => true
  }

  ghost predicate NoneOf<S, R, Q>(a: Log<S, R, Q>, b: Log<S, R, Q>, n: nat) {
    |a| <= |b| && forall o :: |a| <= o < |b| && b[o].Txn? ==> b[o].write.node != n
  }

  lemma StalledOwn<S(!new), R(!new), Q(!new)>(m: Machine<S, R, Q>, w: World<S, R, Q>, step: Step<Q>, x: World<S, R, Q>,
          n: nat)
    requires Stalled(w, n) && Do(m, w, step, x) && Unhelpful(n, w.generation, step) && StepNode(step) == Some(n)
    ensures Stalled(x, n)
  {
    hide Fetch, Reset, PollToken, Cancel, Reserve, PhaseToken, AbortOpen, SetStatus, OpenAt, Driving, Busy, Elected;
    hide Stable, Horizon;
  }

  lemma StalledNode<S(!new), R(!new), Q(!new)>(m: Machine<S, R, Q>, w: World<S, R, Q>, step: Step<Q>,
          x: World<S, R, Q>, n: nat)
    requires Stalled(w, n) && Do(m, w, step, x) && Unhelpful(n, w.generation, step)
    ensures Stalled(x, n) && x.generation == w.generation
  {
    Elsewhere(m, w, step, x);
    if StepNode(step) == Some(n) { StalledOwn(m, w, step, x, n); }
    hide Do;
  }

  // The log grows by no record of the node.
  lemma StalledStep<S(!new), R(!new), Q(!new)>(m: Machine<S, R, Q>, w: World<S, R, Q>, step: Step<Q>,
          x: World<S, R, Q>, n: nat)
    requires Inv(m, w) && Stalled(w, n) && Do(m, w, step, x) && Unhelpful(n, w.generation, step)
    ensures Stalled(x, n) && NoneOf(w.log, x.log, n) && x.generation == w.generation && SameWrites(w.log, x.log)
  {
    LogGrows(m, w, step, x);
    StalledNode(m, w, step, x, n);
    hide Do;
    if step.Append? && step.n < |w.nodes| { assert NodeInv(m, w, step.n); }
    hide Inv, NodeInv;
  }

  lemma NoneOfEither<S, R, Q>(a: Log<S, R, Q>, b: Log<S, R, Q>, c: Log<S, R, Q>, n: nat)
    requires NoneOf(a, b, n) && NoneOf(b, c, n) && SameWrites(b, c)
    ensures NoneOf(a, c, n)
  {}

  // Neighbouring worlds are related by the step between them.
  ghost predicate IsPath<S, R, Q>(m: Machine<S, R, Q>, worlds: seq<World<S, R, Q>>, steps: seq<Step<Q>>) {
    |worlds| == |steps| + 1 && forall i :: 0 <= i < |steps| ==> Do(m, worlds[i], steps[i], worlds[i + 1])
  }

  /** Whatever the other nodes do, a stalled node appends nothing more in its generation. */
  lemma {:induction false} StalledNeverAppends<S(!new), R(!new), Q(!new)>(m: Machine<S, R, Q>,
          worlds: seq<World<S, R, Q>>, steps: seq<Step<Q>>, n: nat, i: nat)
    requires Lawful(m) && IsPath(m, worlds, steps) && i < |worlds| && Inv(m, worlds[0]) && Stalled(worlds[0], n)
    requires forall step <- steps :: Unhelpful(n, worlds[0].generation, step)
    ensures Inv(m, worlds[i]) && Stalled(worlds[i], n) && worlds[i].generation == worlds[0].generation
    ensures NoneOf(worlds[0].log, worlds[i].log, n)
  {
    hide Do, Inv, Lawful, Stalled, Unhelpful, SameWrites;
    if i > 0 {
      StalledNeverAppends(m, worlds, steps, n, i - 1);
      assert Do(m, worlds[i - 1], steps[i - 1], worlds[i]) && steps[i - 1] in steps;
      StalledStep(m, worlds[i - 1], steps[i - 1], worlds[i], n);
      NoneOfEither(worlds[0].log, worlds[i - 1].log, worlds[i].log, n);
      StepKeeps(m, worlds[i - 1], steps[i - 1], worlds[i]);
    }
  }

  // The node's last transaction is decided.
  ghost predicate Settled<S, R, Q>(w: World<S, R, Q>, n: nat)
    requires n < |w.nodes|
  {
    w.nodes[n].transaction.Sent? ==> !OpenAt(w, w.nodes[n].transaction.offset)
  }

  lemma OwnStep<S(!new), R(!new), Q(!new)>(m: Machine<S, R, Q>, w: World<S, R, Q>, step: Step<Q>, x: World<S, R, Q>,
          n: nat)
    requires Stalled(w, n) && Settled(w, n) && Own(w, n, step) && Do(m, w, step, x)
    ensures Stalled(x, n) && Settled(x, n) && Visible(x.log) == Visible(w.log)
  {
    if step.Order? || step.OrderConfirmation? { MarkerIsInvisible(w.log, w.nextToken); }
    hide Visible, Fetch;
  }

  lemma {:induction false} StalledOwnSteps<S(!new), R(!new), Q(!new)>(m: Machine<S, R, Q>, w: World<S, R, Q>,
          steps: seq<Step<Q>>, x: World<S, R, Q>, n: nat)
    requires Stalled(w, n) && Settled(w, n) && Leads(m, n, w, steps, x)
    ensures Visible(x.log) == Visible(w.log)
    decreases |steps|
  {
    hide Do, Own, Stalled, Settled, Visible;
    if steps != [] {
      var y :| Do(m, w, steps[0], y) && Leads(m, n, y, steps[1..], x);
      OwnStep(m, w, steps[0], y, n);
      StalledOwnSteps(m, y, steps[1..], x, n);
    }
  }

  /** An idle primary of the current generation completes a write that has something to append exactly when
      its producer was not replaced after it fenced the generation. */
  lemma WriteCompletesIff<S(!new), R(!new), Q(!new)>(m: Machine<S, R, Q>, w: World<S, R, Q>, n: nat, request: Q,
          count: nat)
    requires Lawful(m) && Inv(m, w) && n < |w.nodes| && w.nodes[n].phase.Idle? && !Busy(w, n)
    requires w.nodes[n].primary == Some(w.generation)
    requires m.plan(request, Copies(Fold(m, m.init, Visible(w.log)), count)) != []
    ensures (exists steps, x :: Leads(m, n, w, steps, x) && Completed(m, w, x, n, request, count)) <==>
              (w.nodes[n].fenced == Some(w.generation) ==> 0 < w.nodes[n].epoch == w.epoch)
  {
    hide Inv, Lawful, Do, Leads, Visible, Fold;
    if w.nodes[n].fenced == Some(w.generation) ==> 0 < w.nodes[n].epoch == w.epoch {
      var steps, x := WriteCompletes(m, w, n, request, count);
    } else {
      BehindTheEpoch(m, w, n);
      forall steps, x | Leads(m, n, w, steps, x) ensures !Completed(m, w, x, n, request, count) {
        StalledOwnSteps(m, w, steps, x, n);
      }
    }
  }

  lemma BehindTheEpoch<S, R, Q>(m: Machine<S, R, Q>, w: World<S, R, Q>, n: nat)
    requires Inv(m, w) && n < |w.nodes|
    ensures w.nodes[n].epoch <= w.epoch
  {}

  // ------------------------------------------------------------------
  // How a producer is replaced
  // ------------------------------------------------------------------

  lemma Extended<S(!new), R(!new), Q(!new)>(m: Machine<S, R, Q>, run: seq<World<S, R, Q>>, steps: seq<Step<Q>>,
          step: Step<Q>, x: World<S, R, Q>)
    requires IsRun(m, run, steps) && Do(m, run[|run| - 1], step, x)
    ensures IsRun(m, run + [x], steps + [step])
  {
    hide Do, Init;
  }

  // A node that a generation makes primary learns it and begins.
  lemma MadePrimary<S(!new), R(!new), Q(!new)>(m: Machine<S, R, Q>, run: seq<World<S, R, Q>>, steps: seq<Step<Q>>,
          n: nat, request: Q) returns (longer: seq<World<S, R, Q>>, more: seq<Step<Q>>)
    requires IsRun(m, run, steps)
    requires var w := run[|run| - 1]; n < |w.nodes| && w.nodes[n] == Node(None, None, 0, Start(m), Idle, NoTransaction)
    ensures IsRun(m, longer, more)
    ensures var w, x := run[|run| - 1], longer[|longer| - 1];
            && x.generation == w.generation + 1 && x.log == w.log && x.epoch == w.epoch && |x.nodes| == |w.nodes|
            && x.nodes == w.nodes[n := Node(Some(x.generation), None, 0, Start(m), Fencing(x.generation, request),
                                            NoTransaction)]
  {
    hide Init;
    var w := run[|run| - 1];
    var g := w.generation + 1;
    var a := w.(generation := g, elected := w.elected[g := n]);
    Extended(m, run, steps, Elect(Some(n)), a);
    var b := SetNode(a, n, a.nodes[n].(primary := Some(g)));
    Extended(m, run + [a], steps + [Elect(Some(n))], Learn(n, g), b);
    var c := Enter(b, n, Fencing(g, request));
    Extended(m, run + [a] + [b], steps + [Elect(Some(n))] + [Learn(n, g)], Begin(n, request), c);
    longer := run + [a] + [b] + [c];
    more := steps + [Elect(Some(n))] + [Learn(n, g)] + [Begin(n, request)];
  }

  /** Two nodes: the initialisation that the former primary requested arrives after the current one has fenced.
      The current primary is idle, undisturbed, and stalled. */
  lemma FencedOff<S(!new), R(!new), Q(!new)>(m: Machine<S, R, Q>, request: Q)
          returns (run: seq<World<S, R, Q>>, steps: seq<Step<Q>>)
    ensures IsRun(m, run, steps)
    ensures var w := run[|run| - 1];
            && 0 < |w.nodes| && w.nodes[0].phase.Idle? && !Busy(w, 0) && w.nodes[0].primary == Some(w.generation)
            && Stalled(w, 0)
  {
    hide Do;
    var idle: Node<S, R, Q> := Node(None, None, 0, Start(m), Idle, NoTransaction);
    var start := World([], 0, 0, map[], [idle, idle], 0);
    assert IsRun(m, [start], []);
    var r1, s1 := MadePrimary(m, [start], [], 1, request);
    var r2, s2 := MadePrimary(m, r1, s1, 0, request);
    var w := r2[|r2| - 1];
    var a := Initialised(w, 0, Some(w.generation), Ordering(w.generation, request));
    FenceFresh(m, w, 0);
    Extended(m, r2, s2, Fence(0), a);
    var b := Enter(a, 0, Idle);
    GivesUp(m, a, 0);
    Extended(m, r2 + [a], s2 + [Fence(0)], Abandon(0), b);
    var c := Initialised(b, 1, b.nodes[1].fenced, b.nodes[1].phase);
    InitialisesLate(m, b, 1);
    Extended(m, r2 + [a] + [b], s2 + [Fence(0)] + [Abandon(0)], LateInit(1), c);
    run, steps := r2 + [a] + [b] + [c], s2 + [Fence(0)] + [Abandon(0)] + [LateInit(1)];
  }

  lemma FenceFresh<S(!new), R(!new), Q(!new)>(m: Machine<S, R, Q>, w: World<S, R, Q>, n: nat)
    requires n < |w.nodes| && w.nodes[n].phase.Fencing? && w.nodes[n].fenced.None?
    ensures var p := w.nodes[n].phase;
            Do(m, w, Fence(n), Initialised(w, n, Some(p.generation), Ordering(p.generation, p.request)))
  {}

  lemma GivesUp<S(!new), R(!new), Q(!new)>(m: Machine<S, R, Q>, w: World<S, R, Q>, n: nat)
    requires n < |w.nodes| && w.nodes[n].phase.Ordering?
    ensures Do(m, w, Abandon(n), Enter(w, n, Idle))
  {
    var node := w.nodes[n];
    assert node.(reader := node.reader.(barriers := node.reader.barriers), phase := Idle) == node.(phase := Idle);
  }

  lemma InitialisesLate<S(!new), R(!new), Q(!new)>(m: Machine<S, R, Q>, w: World<S, R, Q>, n: nat)
    requires n < |w.nodes|
    ensures Do(m, w, LateInit(n), Initialised(w, n, w.nodes[n].fenced, w.nodes[n].phase))
  {}

  // ------------------------------------------------------------------
  // The next election
  // ------------------------------------------------------------------

  // A node that learns that it was elected, and gives up what it was doing.
  function Freed<S, R, Q>(w: World<S, R, Q>, n: nat): World<S, R, Q>
    requires n < |w.nodes|
  {
    var node := w.nodes[n];
    var held := node.reader.barriers;
    var barriers := match PhaseToken(node.phase) case Some(t) => Cancel(held, t) case None => held;
    SetNode(w, n, node.(reader := node.reader.(barriers := barriers), phase := Idle))
  }

  lemma ElectedAndFreed<S(!new), R(!new), Q(!new)>(m: Machine<S, R, Q>, run: seq<World<S, R, Q>>,
          steps: seq<Step<Q>>, n: nat) returns (longer: seq<World<S, R, Q>>, more: seq<Step<Q>>)
    requires IsRun(m, run, steps) && n < |run[|run| - 1].nodes|
    ensures IsRun(m, longer, steps + more) && run <= longer
    ensures var w, x := run[|run| - 1], longer[|longer| - 1];
            && n < |x.nodes| == |w.nodes| && x.log == w.log && x.generation == w.generation + 1
            && x.nodes[n].phase.Idle? && x.nodes[n].primary == Some(x.generation)
            && x.nodes[n].fenced == w.nodes[n].fenced && x.nodes[n].transaction == w.nodes[n].transaction
  {
    hide Init;
    var w := run[|run| - 1];
    var g := w.generation + 1;
    var a := w.(generation := g, elected := w.elected[g := n]);
    Extended(m, run, steps, Elect(Some(n)), a);
    var b := SetNode(a, n, a.nodes[n].(primary := Some(g)));
    Extended(m, run + [a], steps + [Elect(Some(n))], Learn(n, g), b);
    var c := Freed(b, n);
    Extended(m, run + [a] + [b], steps + [Elect(Some(n))] + [Learn(n, g)], Abandon(n), c);
    longer := run + [a] + [b] + [c];
    more := [Elect(Some(n))] + [Learn(n, g)] + [Abandon(n)];
    assert steps + more == steps + [Elect(Some(n))] + [Learn(n, g)] + [Abandon(n)];
  }

  // What is left of an earlier transaction is dropped or aborted.
  lemma TransactionEnds<S(!new), R(!new), Q(!new)>(m: Machine<S, R, Q>, run: seq<World<S, R, Q>>,
          steps: seq<Step<Q>>, n: nat) returns (longer: seq<World<S, R, Q>>, more: seq<Step<Q>>)
    requires IsRun(m, run, steps) && n < |run[|run| - 1].nodes|
    ensures IsRun(m, longer, steps + more) && run <= longer
    ensures var w, x := run[|run| - 1], longer[|longer| - 1];
            && n < |x.nodes| && !Busy(x, n) && x.generation == w.generation && Visible(x.log) == Visible(w.log)
            && x.nodes[n].phase == w.nodes[n].phase && x.nodes[n].primary == w.nodes[n].primary
            && x.nodes[n].fenced == w.nodes[n].fenced
  {
    hide Init, Visible;
    var w := run[|run| - 1];
    longer, more := run, [];
    assert steps + [] == steps;
    match w.nodes[n].transaction
    case NoTransaction =>
    case Sending(_, _, _, _) =>
      var x := SetNode(w, n, w.nodes[n].(transaction := NoTransaction));
      Extended(m, run, steps, DropSend(n), x);
      longer, more := run + [x], [DropSend(n)];
    case Sent(o) =>
      if OpenAt(w, o) {
        var x := w.(log := SetStatus(w.log, o, Aborted));
        Extended(m, run, steps, AbortAt(o), x);
        CalmVisible(w.log, x.log, 0);
        assert w.log[0..] == w.log && x.log[0..] == x.log;
        longer, more := run + [x], [AbortAt(o)];
      }
  }

  lemma FencedBefore<S(!new), R(!new), Q(!new)>(m: Machine<S, R, Q>, run: seq<World<S, R, Q>>, steps: seq<Step<Q>>,
          n: nat)
    requires Lawful(m) && IsRun(m, run, steps) && n < |run[|run| - 1].nodes|
    ensures run[|run| - 1].nodes[n].fenced != Some(run[|run| - 1].generation + 1)
  {
    hide Do, Init;
    RunKeeps(m, run, steps, |run| - 1);
    assert NodeInv(m, run[|run| - 1], n);
  }

  /** Whatever has happened in a run, an election of a node makes it able to write, and nothing is committed or lost
      by that. */
  lemma ElectionMakesAble<S(!new), R(!new), Q(!new)>(m: Machine<S, R, Q>, run: seq<World<S, R, Q>>,
          before: seq<Step<Q>>, n: nat) returns (longer: seq<World<S, R, Q>>, steps: seq<Step<Q>>)
    requires Lawful(m) && IsRun(m, run, before) && n < |run[|run| - 1].nodes|
    ensures IsRun(m, longer, before + steps) && run <= longer
    ensures var w, x := run[|run| - 1], longer[|longer| - 1];
            Able(x, n) && x.generation == w.generation + 1 && Visible(x.log) == Visible(w.log)
  {
    hide IsRun, Visible, Inv, Lawful;
    FencedBefore(m, run, before, n);
    var r1, s1 := ElectedAndFreed(m, run, before, n);
    var s2;
    longer, s2 := TransactionEnds(m, r1, before + s1, n);
    steps := s1 + s2;
    assert before + s1 + s2 == before + steps;
  }

  /** So every run can go on until any node has completed any request: the log holds exactly its plan more. */
  lemma EveryRequestCanComplete<S(!new), R(!new), Q(!new)>(m: Machine<S, R, Q>, run: seq<World<S, R, Q>>,
          before: seq<Step<Q>>, n: nat, request: Q, count: nat)
          returns (longer: seq<World<S, R, Q>>, steps: seq<Step<Q>>)
    requires Lawful(m) && IsRun(m, run, before) && n < |run[|run| - 1].nodes|
    ensures IsRun(m, longer, before + steps) && run <= longer
    ensures var records, x := Visible(run[|run| - 1].log), longer[|longer| - 1];
            && Visible(x.log) == records + m.plan(request, Copies(Fold(m, m.init, records), count))
            && n < |x.nodes| && x.nodes[n].reader.live == Fold(m, m.init, Visible(x.log))
  {
    hide IsRun, Visible, Lawful, Able, Fold;
    var r1, s1 := ElectionMakesAble(m, run, before, n);
    var s2;
    longer, s2 := RunCompletes(m, r1, before + s1, n, request, count);
    steps := s1 + s2;
    assert before + s1 + s2 == before + steps;
  }
}

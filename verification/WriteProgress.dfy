/** The write protocol gets somewhere: the primary of the current generation completes its write on its own. */
module WriteProgress {
  import opened Wrappers
  import opened SchemaLog
  import opened Reader
  import opened Protocol
  import opened SerialDecisions
  import opened SerialRuns

  // ------------------------------------------------------------------
  // Steps of one node
  // ------------------------------------------------------------------

  /** A step of the write that node `n` performs, with the broker's answers to it. */
  ghost predicate Own<S, R, Q>(w: World<S, R, Q>, n: nat, step: Step<Q>) {
    match step
    case Begin(k, _) => k == n
    case Fence(k) => k == n
    case Order(k) => k == n
    case Await(k) => k == n
    case Recheck(k) => k == n
    case Snapshot(k) => k == n
    case Decide(k) => k == n
    case BeginTransaction(k) => k == n
    case Append(k) => k == n
    case SendOffsets(k) => k == n
    case RequestCommit(k) => k == n
    case CommitAt(o) => n < |w.nodes| && w.nodes[n].transaction == Sent(o)
    case Next(k) => k == n
    case OrderConfirmation(k) => k == n
    case Confirm(k) => k == n
    case Abandon(k) => k == n
    case FetchTo(k, _) => k == n
    case _ => false
  }

  /** Steps of node `n` lead from one world to another. */
  ghost predicate Leads<S(!new), R(!new), Q(!new)>(m: Machine<S, R, Q>, n: nat, w: World<S, R, Q>, steps: seq<Step<Q>>,
          x: World<S, R, Q>)
    decreases |steps|
  {
    if steps == [] then x == w
    else Own(w, n, steps[0]) && exists y :: Do(m, w, steps[0], y) && Leads(m, n, y, steps[1..], x)
  }

  lemma OneStep<S(!new), R(!new), Q(!new)>(m: Machine<S, R, Q>, n: nat, w: World<S, R, Q>, step: Step<Q>,
          x: World<S, R, Q>)
    requires Own(w, n, step) && Do(m, w, step, x)
    ensures Leads(m, n, w, [step], x)
  {
    hide Do, Own;
    assert Leads(m, n, x, [step][1..], x);
  }

  lemma {:induction false} Continued<S(!new), R(!new), Q(!new)>(m: Machine<S, R, Q>, n: nat, w: World<S, R, Q>,
          a: seq<Step<Q>>, y: World<S, R, Q>, b: seq<Step<Q>>, x: World<S, R, Q>)
    requires Leads(m, n, w, a, y) && Leads(m, n, y, b, x)
    ensures Leads(m, n, w, a + b, x)
    decreases |a|
  {
    hide Do, Own;
    if a == [] {
      assert a + b == b;
    } else {
      var z :| Do(m, w, a[0], z) && Leads(m, n, z, a[1..], y);
      Continued(m, n, z, a[1..], y, b, x);
      assert (a + b)[1..] == a[1..] + b;
    }
  }

  /** Such steps extend a run. */
  lemma {:induction false} RunExtends<S(!new), R(!new), Q(!new)>(m: Machine<S, R, Q>, n: nat, run: seq<World<S, R, Q>>,
          before: seq<Step<Q>>, steps: seq<Step<Q>>, x: World<S, R, Q>) returns (longer: seq<World<S, R, Q>>)
    requires IsRun(m, run, before) && Leads(m, n, run[|run| - 1], steps, x)
    ensures IsRun(m, longer, before + steps) && run <= longer && longer[|longer| - 1] == x
    decreases |steps|
  {
    hide Do, Own;
    longer := run;
    if steps == [] {
      assert before + steps == before;
    } else {
      var y :| Do(m, run[|run| - 1], steps[0], y) && Leads(m, n, y, steps[1..], x);
      longer := RunExtends(m, n, run + [y], before + [steps[0]], steps[1..], x);
      assert before + [steps[0]] + steps[1..] == before + steps;
    }
  }

  // ------------------------------------------------------------------
  // Ready to go on
  // ------------------------------------------------------------------

  ghost predicate NothingOpen<S, R, Q>(w: World<S, R, Q>) { forall o: nat :: !OpenAt(w, o) }

  /** Nothing has happened but the write of node `n`, whose producer is the current one. */
  ghost predicate Ready<S, R, Q>(m: Machine<S, R, Q>, w: World<S, R, Q>, x: World<S, R, Q>, n: nat, records: seq<R>) {
    && Inv(m, x) && n < |x.nodes| == |w.nodes| && x.generation == w.generation && NothingOpen(x)
    && x.nodes[n].primary == Some(x.generation) && 0 < x.nodes[n].epoch == x.epoch
    && !x.nodes[n].transaction.Sending? && Visible(x.log) == records
    && forall k :: 0 <= k < |x.nodes| && k != n ==> x.nodes[k] == w.nodes[k]
  }

  // The live store shows the whole log.
  ghost predicate CaughtUp<S, R, Q>(x: World<S, R, Q>, n: nat)
    requires n < |x.nodes|
  {
    x.nodes[n].reader.rebuild.None? && x.nodes[n].reader.next == x.nodes[n].reader.folded == |x.log|
  }

  /** The node may start a write: nothing of it is under way, it is published primary of the current
      generation, and if it has fenced that generation its producer has not been replaced since. */
  ghost predicate Able<S, R, Q>(w: World<S, R, Q>, n: nat) {
    && n < |w.nodes| && w.nodes[n].phase.Idle? && !Busy(w, n) && w.nodes[n].primary == Some(w.generation)
    && (w.nodes[n].fenced == Some(w.generation) ==> 0 < w.nodes[n].epoch == w.epoch)
  }

  // ------------------------------------------------------------------
  // Begin and fence
  // ------------------------------------------------------------------

  // An open transaction belongs to the current producer.
  lemma OpenIsCurrent<S, R, Q>(m: Machine<S, R, Q>, w: World<S, R, Q>, n: nat)
    requires Inv(m, w) && n < |w.nodes| && 0 < w.nodes[n].epoch == w.epoch && !Busy(w, n)
    ensures NothingOpen(w)
  {
    forall o: nat ensures !OpenAt(w, o) {
      if o < |w.log| { assert EntryInv(m, w, o); }
    }
  }

  lemma AbortKeepsVisible<S, R, Q>(log: Log<S, R, Q>)
    ensures Visible(AbortOpen(log)) == Visible(log)
  {
    AbortedIsCalm(log);
    CalmVisible(log, AbortOpen(log), 0);
    assert log[0..] == log && AbortOpen(log)[0..] == AbortOpen(log);
  }

  lemma Begun<S(!new), R(!new), Q(!new)>(m: Machine<S, R, Q>, w: World<S, R, Q>, n: nat, request: Q)
    requires Lawful(m) && Inv(m, w) && Able(w, n)
    ensures var x := Enter(w, n, Fencing(w.generation, request)); Inv(m, x) && Do(m, w, Begin(n, request), x)
  {
    var x := Enter(w, n, Fencing(w.generation, request));
    assert Do(m, w, Begin(n, request), x);
    hide Do, Inv, Lawful;
    StepKeeps(m, w, Begin(n, request), x);
  }

  lemma Fenced<S(!new), R(!new), Q(!new)>(m: Machine<S, R, Q>, w: World<S, R, Q>, n: nat, request: Q)
          returns (x: World<S, R, Q>)
    requires Lawful(m) && Inv(m, w) && n < |w.nodes| && w.nodes[n].phase == Fencing(w.generation, request)
    requires !Busy(w, n) && w.nodes[n].primary == Some(w.generation)
    requires w.nodes[n].fenced == Some(w.generation) ==> 0 < w.nodes[n].epoch == w.epoch
    ensures Do(m, w, Fence(n), x) && Ready(m, w, x, n, Visible(w.log))
    ensures x.nodes[n].phase == Ordering(w.generation, request)
  {
    var p := w.nodes[n].phase;
    if w.nodes[n].fenced == Some(w.generation) {
      x := Enter(w, n, Ordering(w.generation, request));
      OpenIsCurrent(m, w, n);
      assert forall o: nat :: OpenAt(x, o) ==> OpenAt(w, o);
    } else {
      x := Initialised(w, n, Some(w.generation), Ordering(w.generation, request));
      AbortKeepsVisible(w.log);
      AbortedIsCalm(w.log);
      assert forall o: nat :: !OpenAt(x, o);
    }
    assert Do(m, w, Fence(n), x);
    hide Do, Inv, Lawful;
    StepKeeps(m, w, Fence(n), x);
  }

  // ------------------------------------------------------------------
  // A barrier and the way back
  // ------------------------------------------------------------------

  // The node's token is the last entry of the log, and the reader has not read it yet.
  ghost predicate Announced<S, R, Q>(x: World<S, R, Q>, n: nat, token: nat)
    requires n < |x.nodes|
  {
    && token in x.nodes[n].reader.barriers.pending
    && x.log != [] && x.log[|x.log| - 1] == Marker(token) && x.nodes[n].reader.next < |x.log|
  }

  lemma MarkerIsInvisible<S, R, Q>(log: Log<S, R, Q>, token: nat)
    ensures Visible(log + [Marker(token)]) == Visible(log)
  {
    assert (log + [Marker(token)])[..|log|] == log;
  }

  // What a barrier changes besides the phase.
  lemma OrderedReady<S(!new), R(!new), Q(!new)>(m: Machine<S, R, Q>, w: World<S, R, Q>, x: World<S, R, Q>, n: nat,
          records: seq<R>, phase: Phase<S, R, Q>)
    requires Ready(m, w, x, n, records) && Inv(m, Ordered(x, n, phase))
    ensures var y := Ordered(x, n, phase);
            Ready(m, w, y, n, records) && Announced(y, n, x.nextToken) && y.log == x.log + [Marker(x.nextToken)]
  {
    var y := Ordered(x, n, phase);
    MarkerIsInvisible(x.log, x.nextToken);
    assert NodeInv(m, x, n);
    assert x.nodes[n].reader.next <= |x.log|;
    forall o: nat ensures !OpenAt(y, o) { assert !OpenAt(x, o); }
    hide Inv, Visible;
  }

  lemma LastToken<S, R, Q>(log: Log<S, R, Q>, i: nat, token: nat)
    requires i < |log| && log[|log| - 1] == Marker(token)
    ensures token in Tokens(log[i..])
  {
    assert log[i..][|log[i..]| - 1] == Marker(token);
  }

  /** Reading to the end completes a running rebuild and sees the token. */
  lemma ReadToTheEnd<S(!new), R(!new), Q(!new)>(m: Machine<S, R, Q>, w: World<S, R, Q>, x: World<S, R, Q>, n: nat,
          records: seq<R>, token: nat) returns (y: World<S, R, Q>)
    requires Lawful(m) && Ready(m, w, x, n, records) && Announced(x, n, token)
    ensures Do(m, x, FetchTo(n, |x.log|), y) && Ready(m, w, y, n, records) && y.log == x.log && CaughtUp(y, n)
    ensures y.nodes[n].phase == x.nodes[n].phase && y.nextToken == x.nextToken
    ensures PollToken(y.nodes[n].reader.barriers, token).1 == Seen
  {
    var r := x.nodes[n].reader;
    assert NodeInv(m, x, n);
    y := SetNode(x, n, x.nodes[n].(reader := Fetch(m, r, x.log, |x.log|)));
    assert Stable(x.log, |x.log|) by {
      forall i | 0 <= i < |x.log| && x.log[i].Txn? ensures !x.log[i].status.Open? { assert !OpenAt(x, i); }
    }
    assert Do(m, x, FetchTo(n, |x.log|), y);
    assert x.log[r.next..|x.log|] == x.log[r.next..];
    LastToken(x.log, r.next, token);
    ObserveAllEffect(r.barriers, r.observed + Tokens(x.log[r.next..]));
    forall o: nat ensures !OpenAt(y, o) { assert !OpenAt(x, o); }
    hide Do, Inv, Lawful, Visible, Fold, Tokens, ObserveAll;
    StepKeeps(m, x, FetchTo(n, |x.log|), y);
  }

  // ------------------------------------------------------------------
  // Synchronise
  // ------------------------------------------------------------------

  // A step that changes nothing but the node's phase or barriers.
  lemma ReadyStays<S(!new), R(!new), Q(!new)>(m: Machine<S, R, Q>, w: World<S, R, Q>, x: World<S, R, Q>, n: nat,
          records: seq<R>, step: Step<Q>, y: World<S, R, Q>)
    requires Lawful(m) && Ready(m, w, x, n, records) && Do(m, x, step, y)
    requires y.log == x.log && y.generation == x.generation && y.epoch == x.epoch
    requires n < |y.nodes| && y == x.(nodes := x.nodes[n := y.nodes[n]])
    requires y.nodes[n].primary == x.nodes[n].primary && y.nodes[n].epoch == x.nodes[n].epoch
    requires !y.nodes[n].transaction.Sending?
    ensures Ready(m, w, y, n, records)
  {
    hide Do, Inv, Lawful, Visible;
    StepKeeps(m, x, step, y);
    forall o: nat ensures !OpenAt(y, o) { assert !OpenAt(x, o); }
  }

  ghost predicate IsReading<S, R, Q>(x: World<S, R, Q>, n: nat, g: nat, request: Q, snapshots: seq<S>)
    requires n < |x.nodes|
  {
    && x.nodes[n].phase.Reading?
    && var write := x.nodes[n].phase.write;
       write.node == n && write.generation == g && write.request == request && write.snapshots == snapshots
  }

  // The barrier came back: the node is still the published primary, and goes on.
  lemma Rechecked<S(!new), R(!new), Q(!new)>(m: Machine<S, R, Q>, w: World<S, R, Q>, x: World<S, R, Q>, n: nat,
          records: seq<R>, request: Q, token: nat, barrier: nat) returns (steps: seq<Step<Q>>, y: World<S, R, Q>)
    requires Lawful(m) && Ready(m, w, x, n, records) && CaughtUp(x, n)
    requires x.nodes[n].phase == Waiting(x.generation, request, token, barrier)
    requires PollToken(x.nodes[n].reader.barriers, token).1 == Seen
    ensures Leads(m, n, x, steps, y) && Ready(m, w, y, n, records) && CaughtUp(y, n)
    ensures IsReading(y, n, x.generation, request, [])
  {
    hide Inv, Lawful, Visible, Leads, OpenAt;
    var node := x.nodes[n];
    var (barriers, _) := PollToken(node.reader.barriers, token);
    var z := SetNode(x, n, node.(reader := node.reader.(barriers := barriers),
                                 phase := Checking(x.generation, request, barrier)));
    assert Do(m, x, Await(n), z);
    ReadyStays(m, w, x, n, records, Await(n), z);
    OneStep(m, n, x, Await(n), z);
    y := Enter(z, n, Reading(Write(n, x.generation, barrier, request, [])));
    assert Do(m, z, Recheck(n), y);
    ReadyStays(m, w, z, n, records, Recheck(n), y);
    OneStep(m, n, z, Recheck(n), y);
    steps := [Await(n)] + [Recheck(n)];
    Continued(m, n, x, [Await(n)], z, [Recheck(n)], y);
  }

  /** Fence, barrier, wait, recheck: the node reads, with everything committed in its live store. */
  lemma Synchronises<S(!new), R(!new), Q(!new)>(m: Machine<S, R, Q>, w: World<S, R, Q>, n: nat, request: Q)
          returns (steps: seq<Step<Q>>, x: World<S, R, Q>)
    requires Lawful(m) && Inv(m, w) && Able(w, n)
    ensures Leads(m, n, w, steps, x) && Ready(m, w, x, n, Visible(w.log)) && CaughtUp(x, n)
    ensures IsReading(x, n, w.generation, request, [])
  {
    hide Do, Inv, Lawful, Visible, Leads, OpenAt, Fold, Initialised;
    var a := Enter(w, n, Fencing(w.generation, request));
    Begun(m, w, n, request);
    OneStep(m, n, w, Begin(n, request), a);
    StillIdle(w, n, Fencing(w.generation, request));
    var b := Fenced(m, a, n, request);
    ReadySince(m, w, a, b, n, Visible(w.log));
    OneStep(m, n, a, Fence(n), b);
    var phase := Waiting(w.generation, request, b.nextToken, |b.log|);
    var c := Ordered(b, n, phase);
    OrderDone(m, b, n);
    OrderedReady(m, w, b, n, Visible(w.log), phase);
    OneStep(m, n, b, Order(n), c);
    var d := ReadToTheEnd(m, w, c, n, Visible(w.log), b.nextToken);
    OneStep(m, n, c, FetchTo(n, |c.log|), d);
    var rest, e := Rechecked(m, w, d, n, Visible(w.log), request, b.nextToken, |b.log|);
    x := e;
    Continued(m, n, w, [Begin(n, request)], a, [Fence(n)], b);
    Continued(m, n, w, [Begin(n, request)] + [Fence(n)], b, [Order(n)], c);
    Continued(m, n, w, [Begin(n, request)] + [Fence(n)] + [Order(n)], c, [FetchTo(n, |c.log|)], d);
    steps := [Begin(n, request)] + [Fence(n)] + [Order(n)] + [FetchTo(n, |c.log|)] + rest;
    Continued(m, n, w, [Begin(n, request)] + [Fence(n)] + [Order(n)] + [FetchTo(n, |c.log|)], d, rest, e);
  }

  lemma StillIdle<S, R, Q>(w: World<S, R, Q>, n: nat, phase: Phase<S, R, Q>)
    requires n < |w.nodes| && !Busy(w, n)
    ensures !Busy(Enter(w, n, phase), n)
  {}

  lemma ReadySince<S(!new), R(!new), Q(!new)>(m: Machine<S, R, Q>, w: World<S, R, Q>, a: World<S, R, Q>,
          x: World<S, R, Q>, n: nat, records: seq<R>)
    requires Ready(m, a, x, n, records) && n < |w.nodes| == |a.nodes| && a.generation == w.generation
    requires forall k :: 0 <= k < |w.nodes| && k != n ==> a.nodes[k] == w.nodes[k]
    ensures Ready(m, w, x, n, records)
  {
    hide Inv, Visible, OpenAt;
  }

  lemma OrderDone<S(!new), R(!new), Q(!new)>(m: Machine<S, R, Q>, x: World<S, R, Q>, n: nat)
    requires Lawful(m) && Inv(m, x) && n < |x.nodes| && x.nodes[n].phase.Ordering?
    ensures var p := x.nodes[n].phase;
            var y := Ordered(x, n, Waiting(p.generation, p.request, x.nextToken, |x.log|));
            Do(m, x, Order(n), y) && Inv(m, y)
  {
    var p := x.nodes[n].phase;
    var y := Ordered(x, n, Waiting(p.generation, p.request, x.nextToken, |x.log|));
    assert Do(m, x, Order(n), y);
    hide Do, Inv, Lawful;
    StepKeeps(m, x, Order(n), y);
  }

  // ------------------------------------------------------------------
  // Read and decide
  // ------------------------------------------------------------------

  function Copies<S>(s: S, n: nat): (copies: seq<S>)
    ensures |copies| == n && forall x <- copies :: x == s
  {
    if n == 0 then [] else Copies(s, n - 1) + [s]
  }

  lemma LiveIsEverything<S(!new), R(!new), Q(!new)>(m: Machine<S, R, Q>, w: World<S, R, Q>, x: World<S, R, Q>, n: nat,
          records: seq<R>)
    requires Ready(m, w, x, n, records) && CaughtUp(x, n)
    ensures x.nodes[n].reader.live == Fold(m, m.init, records)
  {
    assert NodeInv(m, x, n);
    assert x.log[..|x.log|] == x.log;
  }

  lemma {:induction false} Snapshots<S(!new), R(!new), Q(!new)>(m: Machine<S, R, Q>, w: World<S, R, Q>,
          x: World<S, R, Q>, n: nat, records: seq<R>, request: Q, count: nat)
          returns (steps: seq<Step<Q>>, y: World<S, R, Q>)
    requires Lawful(m) && Ready(m, w, x, n, records) && CaughtUp(x, n) && IsReading(x, n, x.generation, request, [])
    ensures Leads(m, n, x, steps, y) && Ready(m, w, y, n, records) && CaughtUp(y, n)
    ensures IsReading(y, n, x.generation, request, Copies(Fold(m, m.init, records), count))
  {
    hide Inv, Lawful, Visible, Leads, OpenAt, Fold;
    if count == 0 {
      steps, y := [], x;
      NoSteps(m, n, x);
    } else {
      var before, z := Snapshots(m, w, x, n, records, request, count - 1);
      LiveIsEverything(m, w, z, n, records);
      var write := z.nodes[n].phase.write;
      y := Enter(z, n, Reading(write.(snapshots := write.snapshots + [z.nodes[n].reader.live])));
      assert Do(m, z, Snapshot(n), y);
      ReadyStays(m, w, z, n, records, Snapshot(n), y);
      OneStep(m, n, z, Snapshot(n), y);
      Continued(m, n, x, before, z, [Snapshot(n)], y);
      steps := before + [Snapshot(n)];
    }
  }

  lemma NoSteps<S(!new), R(!new), Q(!new)>(m: Machine<S, R, Q>, n: nat, x: World<S, R, Q>)
    ensures Leads(m, n, x, [], x)
  {
    hide Do;
  }

  // `done` records of the write are committed, and no transaction is under way.
  ghost predicate Wrote<S(!new), R(!new), Q(!new)>(m: Machine<S, R, Q>, w: World<S, R, Q>, x: World<S, R, Q>, n: nat,
          records: seq<R>, write: Write<S, Q>, todo: seq<R>, done: nat)
  {
    && done <= |todo| && Ready(m, w, x, n, records + todo[..done])
    && x.nodes[n].phase == Writing(write, todo, done, false)
    && write.generation == x.generation
  }

  lemma Decided<S(!new), R(!new), Q(!new)>(m: Machine<S, R, Q>, w: World<S, R, Q>, x: World<S, R, Q>, n: nat,
          records: seq<R>) returns (y: World<S, R, Q>)
    requires Lawful(m) && Ready(m, w, x, n, records) && CaughtUp(x, n) && x.nodes[n].phase.Reading?
    requires x.nodes[n].phase.write.generation == x.generation
    ensures var write := x.nodes[n].phase.write;
            && Wrote(m, w, y, n, records, write, m.plan(write.request, write.snapshots), 0)
            && Leads(m, n, x, [Decide(n)], y) && CaughtUp(y, n)
  {
    hide Inv, Lawful, Visible, Leads, OpenAt;
    var write := x.nodes[n].phase.write;
    var todo := m.plan(write.request, write.snapshots);
    y := Enter(x, n, Writing(write, todo, 0, false));
    assert Do(m, x, Decide(n), y);
    ReadyStays(m, w, x, n, records, Decide(n), y);
    OneStep(m, n, x, Decide(n), y);
    assert records + todo[..0] == records;
  }

  // ------------------------------------------------------------------
  // One record
  // ------------------------------------------------------------------

  // The node's transaction is the last entry of the log, open with this status.
  ghost predicate Pending<S(!new), R(!new), Q(!new)>(m: Machine<S, R, Q>, w: World<S, R, Q>, x: World<S, R, Q>, n: nat,
          log: Log<S, R, Q>, write: Write<S, Q>, todo: seq<R>, done: nat, status: Status)
  {
    && Inv(m, x) && n < |x.nodes| == |w.nodes| && done < |todo| && x.generation == w.generation == write.generation
    && x.log == log + [Txn(todo[done], status, write, done)] && x.nodes[n].transaction == Sent(|log|)
    && x.nodes[n].phase == Writing(write, todo, done, true)
    && x.nodes[n].primary == Some(x.generation) && 0 < x.nodes[n].epoch == x.epoch
    && forall k :: 0 <= k < |x.nodes| && k != n ==> x.nodes[k] == w.nodes[k]
  }

  lemma Appended<S(!new), R(!new), Q(!new)>(m: Machine<S, R, Q>, w: World<S, R, Q>, x: World<S, R, Q>, n: nat,
          records: seq<R>, write: Write<S, Q>, todo: seq<R>, done: nat) returns (steps: seq<Step<Q>>, y: World<S, R, Q>)
    requires Lawful(m) && Wrote(m, w, x, n, records, write, todo, done) && done < |todo|
    ensures Leads(m, n, x, steps, y) && Pending(m, w, y, n, x.log, write, todo, done, Open(false, false))
  {
    assert !Busy(x, n) by { assert forall o: nat :: !OpenAt(x, o); }
    var z := SetNode(x, n, x.nodes[n].(phase := x.nodes[n].phase.(sending := true),
                                       transaction := Sending(todo[done], x.nodes[n].epoch, write, done)));
    assert Do(m, x, BeginTransaction(n), z);
    y := SetNode(z.(log := z.log + [Txn(todo[done], Open(false, false), write, done)]), n,
                 z.nodes[n].(transaction := Sent(|z.log|)));
    assert Do(m, z, Append(n), y);
    hide Inv, Lawful, Visible, Leads, OpenAt, Do;
    StepKeeps(m, x, BeginTransaction(n), z);
    StepKeeps(m, z, Append(n), y);
    OneStep(m, n, x, BeginTransaction(n), z);
    OneStep(m, n, z, Append(n), y);
    Continued(m, n, x, [BeginTransaction(n)], z, [Append(n)], y);
    steps := [BeginTransaction(n)] + [Append(n)];
  }

  lemma StatusMoves<S(!new), R(!new), Q(!new)>(m: Machine<S, R, Q>, w: World<S, R, Q>, x: World<S, R, Q>, n: nat,
          log: Log<S, R, Q>, write: Write<S, Q>, todo: seq<R>, done: nat, status: Status, step: Step<Q>, next: Status)
    requires Lawful(m) && Pending(m, w, x, n, log, write, todo, done, status)
    requires || (status == Open(false, false) && step == SendOffsets(n) && next == Open(true, false))
             || (status == Open(true, false) && step == RequestCommit(n) && next == Open(true, true))
             || (status == Open(true, true) && step == CommitAt(|log|) && next == Committed)
    ensures var y := x.(log := log + [Txn(todo[done], next, write, done)]);
            Leads(m, n, x, [step], y) && Pending(m, w, y, n, log, write, todo, done, next)
  {
    var y := x.(log := log + [Txn(todo[done], next, write, done)]);
    assert SetStatus(x.log, |log|, next) == y.log;
    assert Driving(x, n, |log|) && OpenAt(x, |log|);
    assert Do(m, x, step, y);
    hide Inv, Lawful, Visible, Leads, OpenAt, Do;
    StepKeeps(m, x, step, y);
    OneStep(m, n, x, step, y);
  }

  // The committed transaction becomes one more written record.
  lemma OneMoreWritten<S(!new), R(!new), Q(!new)>(m: Machine<S, R, Q>, w: World<S, R, Q>, before: World<S, R, Q>,
          x: World<S, R, Q>, n: nat, records: seq<R>, write: Write<S, Q>, todo: seq<R>, done: nat)
    requires Lawful(m) && Wrote(m, w, before, n, records, write, todo, done) && done < |todo|
    requires Pending(m, w, x, n, before.log, write, todo, done, Committed)
    ensures var y := Enter(x, n, Writing(write, todo, done + 1, false));
            Leads(m, n, x, [Next(n)], y) && Wrote(m, w, y, n, records, write, todo, done + 1)
  {
    var y := Enter(x, n, Writing(write, todo, done + 1, false));
    assert Driving(x, n, |before.log|) && Do(m, x, Next(n), y);
    assert x.log[..|before.log|] == before.log && todo[..done + 1] == todo[..done] + [todo[done]];
    assert records + todo[..done + 1] == records + todo[..done] + [todo[done]];
    assert Visible(y.log) == records + todo[..done + 1];
    forall o: nat ensures !OpenAt(y, o) {
      assert !OpenAt(before, o);
    }
    hide Inv, Lawful, Visible, Leads, OpenAt, Do;
    StepKeeps(m, x, Next(n), y);
    OneStep(m, n, x, Next(n), y);
  }

  /** Begin, append, validate the generation, commit. */
  lemma OneRecord<S(!new), R(!new), Q(!new)>(m: Machine<S, R, Q>, w: World<S, R, Q>, x: World<S, R, Q>, n: nat,
          records: seq<R>, write: Write<S, Q>, todo: seq<R>, done: nat) returns (steps: seq<Step<Q>>, y: World<S, R, Q>)
    requires Lawful(m) && Wrote(m, w, x, n, records, write, todo, done) && done < |todo|
    ensures Leads(m, n, x, steps, y) && Wrote(m, w, y, n, records, write, todo, done + 1)
  {
    hide Inv, Lawful, Visible, Leads, OpenAt, Do, Ready;
    var first, a := Appended(m, w, x, n, records, write, todo, done);
    var o := |x.log|;
    var b := a.(log := x.log + [Txn(todo[done], Open(true, false), write, done)]);
    StatusMoves(m, w, a, n, x.log, write, todo, done, Open(false, false), SendOffsets(n), Open(true, false));
    var c := b.(log := x.log + [Txn(todo[done], Open(true, true), write, done)]);
    StatusMoves(m, w, b, n, x.log, write, todo, done, Open(true, false), RequestCommit(n), Open(true, true));
    var d := c.(log := x.log + [Txn(todo[done], Committed, write, done)]);
    StatusMoves(m, w, c, n, x.log, write, todo, done, Open(true, true), CommitAt(o), Committed);
    y := Enter(d, n, Writing(write, todo, done + 1, false));
    OneMoreWritten(m, w, x, d, n, records, write, todo, done);
    Continued(m, n, x, first, a, [SendOffsets(n)], b);
    Continued(m, n, x, first + [SendOffsets(n)], b, [RequestCommit(n)], c);
    Continued(m, n, x, first + [SendOffsets(n)] + [RequestCommit(n)], c, [CommitAt(o)], d);
    steps := first + [SendOffsets(n)] + [RequestCommit(n)] + [CommitAt(o)] + [Next(n)];
    Continued(m, n, x, first + [SendOffsets(n)] + [RequestCommit(n)] + [CommitAt(o)], d, [Next(n)], y);
  }

  lemma {:induction false} AllRecords<S(!new), R(!new), Q(!new)>(m: Machine<S, R, Q>, w: World<S, R, Q>,
          x: World<S, R, Q>, n: nat, records: seq<R>, write: Write<S, Q>, todo: seq<R>, done: nat)
          returns (steps: seq<Step<Q>>, y: World<S, R, Q>)
    requires Lawful(m) && Wrote(m, w, x, n, records, write, todo, done)
    ensures Leads(m, n, x, steps, y) && Wrote(m, w, y, n, records, write, todo, |todo|)
    decreases |todo| - done
  {
    hide Inv, Lawful, Visible, Leads, OpenAt, Do, Ready;
    if done == |todo| {
      steps, y := [], x;
      NoSteps(m, n, x);
    } else {
      var first, z := OneRecord(m, w, x, n, records, write, todo, done);
      var rest, last := AllRecords(m, w, z, n, records, write, todo, done + 1);
      Continued(m, n, x, first, z, rest, last);
      steps, y := first + rest, last;
    }
  }

  // ------------------------------------------------------------------
  // Confirm
  // ------------------------------------------------------------------

  lemma ConfirmOrdered<S(!new), R(!new), Q(!new)>(m: Machine<S, R, Q>, x: World<S, R, Q>, n: nat)
    requires Lawful(m) && Inv(m, x) && n < |x.nodes| && x.nodes[n].phase.Writing?
    requires x.nodes[n].phase.done == |x.nodes[n].phase.todo| && x.nodes[n].phase.todo != []
    ensures var p := x.nodes[n].phase;
            var y := Ordered(x, n, Confirming(p.write, p.todo, x.nextToken, |x.log|));
            Do(m, x, OrderConfirmation(n), y) && Inv(m, y)
  {
    var p := x.nodes[n].phase;
    var y := Ordered(x, n, Confirming(p.write, p.todo, x.nextToken, |x.log|));
    assert Do(m, x, OrderConfirmation(n), y);
    hide Do, Inv, Lawful;
    StepKeeps(m, x, OrderConfirmation(n), y);
  }

  lemma Confirmed<S(!new), R(!new), Q(!new)>(m: Machine<S, R, Q>, w: World<S, R, Q>, x: World<S, R, Q>, n: nat,
          records: seq<R>, write: Write<S, Q>, todo: seq<R>, token: nat, barrier: nat) returns (y: World<S, R, Q>)
    requires Lawful(m) && Ready(m, w, x, n, records) && CaughtUp(x, n)
    requires x.nodes[n].phase == Confirming(write, todo, token, barrier)
    requires PollToken(x.nodes[n].reader.barriers, token).1 == Seen
    ensures Leads(m, n, x, [Confirm(n)], y) && Ready(m, w, y, n, records) && CaughtUp(y, n)
    ensures y.nodes[n].phase == Returned(write, todo)
  {
    hide Inv, Lawful, Visible, Leads, OpenAt;
    var node := x.nodes[n];
    var (barriers, _) := PollToken(node.reader.barriers, token);
    y := SetNode(x, n, node.(reader := node.reader.(barriers := barriers), phase := Returned(write, todo)));
    assert Do(m, x, Confirm(n), y);
    ReadyStays(m, w, x, n, records, Confirm(n), y);
    OneStep(m, n, x, Confirm(n), y);
  }

  /** A second barrier, and the write returns with its records in the live store. */
  lemma Confirms<S(!new), R(!new), Q(!new)>(m: Machine<S, R, Q>, w: World<S, R, Q>, x: World<S, R, Q>, n: nat,
          records: seq<R>, write: Write<S, Q>, todo: seq<R>) returns (steps: seq<Step<Q>>, y: World<S, R, Q>)
    requires Lawful(m) && Wrote(m, w, x, n, records, write, todo, |todo|) && todo != []
    ensures Leads(m, n, x, steps, y) && Ready(m, w, y, n, records + todo) && CaughtUp(y, n)
    ensures y.nodes[n].phase == Returned(write, todo)
  {
    hide Inv, Lawful, Visible, Leads, OpenAt, Do, Fold;
    assert todo[..|todo|] == todo;
    var phase := Confirming(write, todo, x.nextToken, |x.log|);
    var a := Ordered(x, n, phase);
    ConfirmOrdered(m, x, n);
    OrderedReady(m, w, x, n, records + todo, phase);
    OneStep(m, n, x, OrderConfirmation(n), a);
    var b := ReadToTheEnd(m, w, a, n, records + todo, x.nextToken);
    OneStep(m, n, a, FetchTo(n, |a.log|), b);
    y := Confirmed(m, w, b, n, records + todo, write, todo, x.nextToken, |x.log|);
    Continued(m, n, x, [OrderConfirmation(n)], a, [FetchTo(n, |a.log|)], b);
    steps := [OrderConfirmation(n)] + [FetchTo(n, |a.log|)] + [Confirm(n)];
    Continued(m, n, x, [OrderConfirmation(n)] + [FetchTo(n, |a.log|)], b, [Confirm(n)], y);
  }

  // A write that appends nothing ends at once.
  lemma NothingToWrite<S(!new), R(!new), Q(!new)>(m: Machine<S, R, Q>, w: World<S, R, Q>, x: World<S, R, Q>, n: nat,
          records: seq<R>, write: Write<S, Q>) returns (y: World<S, R, Q>)
    requires Lawful(m) && Wrote(m, w, x, n, records, write, [], 0) && CaughtUp(x, n)
    ensures Leads(m, n, x, [Abandon(n)], y) && Ready(m, w, y, n, records) && CaughtUp(y, n)
    ensures y.nodes[n].phase == Idle
  {
    hide Inv, Lawful, Visible, Leads, OpenAt;
    var nothing: seq<R> := [];
    assert records + nothing[..0] == records;
    y := Enter(x, n, Idle);
    assert Do(m, x, Abandon(n), y);
    ReadyStays(m, w, x, n, records, Abandon(n), y);
    OneStep(m, n, x, Abandon(n), y);
  }

  // ------------------------------------------------------------------
  // The whole write
  // ------------------------------------------------------------------

  /** What a completed write leaves: exactly its plan was committed, decided from the fold of everything
      committed before; the live store shows it all; no other node changed. */
  ghost predicate Completed<S(!new), R(!new), Q(!new)>(m: Machine<S, R, Q>, w: World<S, R, Q>, x: World<S, R, Q>,
          n: nat, request: Q, count: nat)
  {
    var plan := m.plan(request, Copies(Fold(m, m.init, Visible(w.log)), count));
    && n < |x.nodes| == |w.nodes| && x.generation == w.generation && Visible(x.log) == Visible(w.log) + plan
    && x.nodes[n].reader.live == Fold(m, m.init, Visible(x.log))
    && (forall k :: 0 <= k < |x.nodes| && k != n ==> x.nodes[k] == w.nodes[k])
    && if plan == [] then x.nodes[n].phase.Idle?
       else
         && x.nodes[n].phase.Returned? && x.nodes[n].phase.todo == plan
         && x.nodes[n].phase.write.request == request && x.nodes[n].phase.write.generation == w.generation
  }

  /** In every reachable world a node that is able to write completes any request by steps of its own. */
  lemma WriteCompletes<S(!new), R(!new), Q(!new)>(m: Machine<S, R, Q>, w: World<S, R, Q>, n: nat, request: Q,
          count: nat) returns (steps: seq<Step<Q>>, x: World<S, R, Q>)
    requires Lawful(m) && Inv(m, w) && Able(w, n)
    ensures Leads(m, n, w, steps, x) && Completed(m, w, x, n, request, count)
  {
    hide Inv, Lawful, Visible, Leads, OpenAt, Do, Fold, Able;
    var records := Visible(w.log);
    var s1, a := Synchronises(m, w, n, request);
    var s2, b := Snapshots(m, w, a, n, records, request, count);
    var write := b.nodes[n].phase.write;
    var todo := m.plan(write.request, write.snapshots);
    var c := Decided(m, w, b, n, records);
    Continued(m, n, w, s1, a, s2, b);
    Continued(m, n, w, s1 + s2, b, [Decide(n)], c);
    if todo == [] {
      x := NothingToWrite(m, w, c, n, records, write);
      Continued(m, n, w, s1 + s2 + [Decide(n)], c, [Abandon(n)], x);
      steps := s1 + s2 + [Decide(n)] + [Abandon(n)];
      LiveIsEverything(m, w, x, n, records);
      assert records + [] == records;
    } else {
      var s3, d := AllRecords(m, w, c, n, records, write, todo, 0);
      var s4, e := Confirms(m, w, d, n, records, write, todo);
      Continued(m, n, w, s1 + s2 + [Decide(n)], c, s3, d);
      Continued(m, n, w, s1 + s2 + [Decide(n)] + s3, d, s4, e);
      steps, x := s1 + s2 + [Decide(n)] + s3 + s4, e;
      LiveIsEverything(m, w, x, n, records + todo);
    }
  }

  /** Every run can be extended so: the log then holds exactly the plan more. */
  lemma RunCompletes<S(!new), R(!new), Q(!new)>(m: Machine<S, R, Q>, run: seq<World<S, R, Q>>, before: seq<Step<Q>>,
          n: nat, request: Q, count: nat) returns (longer: seq<World<S, R, Q>>, steps: seq<Step<Q>>)
    requires Lawful(m) && IsRun(m, run, before) && Able(run[|run| - 1], n)
    ensures IsRun(m, longer, before + steps) && run <= longer
    ensures Completed(m, run[|run| - 1], longer[|longer| - 1], n, request, count)
  {
    hide Inv, Lawful, Do, Able, Completed, Leads;
    RunKeeps(m, run, before, |run| - 1);
    var own, x := WriteCompletes(m, run[|run| - 1], n, request, count);
    longer := RunExtends(m, n, run, before, own, x);
    steps := own;
  }
}

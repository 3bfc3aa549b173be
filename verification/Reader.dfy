/** The group-less reader: it tails the log, folds it into the live store, rebuilds snapshots after
    a reset, and publishes ordering barriers. */
module Reader {
  import opened Wrappers
  import opened SchemaLog

  datatype Barriers = Barriers(pending: set<nat>, seen: set<nat>, invalidated: set<nat>)

  datatype Poll = Pending | Seen | Invalidated

  function Reserve(b: Barriers, token: nat): Barriers { b.(pending := b.pending + {token}) }

  function Observe(b: Barriers, token: nat): Barriers {
    if token in b.pending then b.(seen := b.seen + {token}) else b
  }

  function PollToken(b: Barriers, token: nat): (Barriers, Poll) {
    if token in b.invalidated then (b.(invalidated := b.invalidated - {token}), Invalidated)
    else if token !in b.seen then (b, Pending)
    else (b.(seen := b.seen - {token}, pending := b.pending - {token}), Seen)
  }

  function Cancel(b: Barriers, token: nat): Barriers {
    Barriers(b.pending - {token}, b.seen - {token}, b.invalidated - {token})
  }

  function InvalidateAll(b: Barriers): Barriers {
    Barriers({}, {}, b.invalidated + b.pending)
  }

  function ObserveAll(b: Barriers, tokens: seq<nat>): Barriers
    decreases |tokens|
  {
    if tokens == [] then b else ObserveAll(Observe(b, tokens[0]), tokens[1..])
  }

  ghost predicate BarriersOk(b: Barriers) {
    b.seen <= b.pending && b.invalidated !! b.pending
  }

  lemma {:induction false} ObserveAllEffect(b: Barriers, tokens: seq<nat>)
    ensures var c := ObserveAll(b, tokens);
            && c.pending == b.pending && c.invalidated == b.invalidated
            && forall t :: t in c.seen <==> t in b.seen || (t in b.pending && t in tokens)
    decreases |tokens|
  {
    if tokens != [] {
      ObserveAllEffect(Observe(b, tokens[0]), tokens[1..]);
      assert tokens == [tokens[0]] + tokens[1..];
    }
  }

  // `floor` records the id high water that the snapshot inherited.
  datatype Rebuild<S> = Rebuild(store: S, end: nat, floor: int)

  // `folded` records how much of the log the live store reflects; outside a rebuild it is `next`.
  datatype Reader<S> = Reader(
    next: nat, live: S, folded: nat, rebuild: Option<Rebuild<S>>, observed: seq<nat>, barriers: Barriers)

  function Start<S, R, Q>(m: Machine<S, R, Q>): Reader<S> {
    Reader(0, m.init, 0, None, [], Barriers({}, {}, {}))
  }

  /** One fetch that returns the visible records in [next, upto) and the cursor `upto`. */
  function Fetch<S, R, Q>(m: Machine<S, R, Q>, r: Reader<S>, log: Log<S, R, Q>, upto: nat): Reader<S>
    requires r.next <= upto <= |log|
  {
    var records := Visible(log[r.next..upto]);
    var applied := match r.rebuild
      case Some(b) => r.(rebuild := Some(b.(store := Fold(m, b.store, records))))
      case None => r.(live := Fold(m, r.live, records), folded := upto);
    Publish(Swap(applied.(next := upto, observed := r.observed + Tokens(log[r.next..upto]))))
  }

  /** A complete rebuild replaces the live store. */
  function Swap<S>(r: Reader<S>): Reader<S> {
    if r.rebuild.Some? && r.next >= r.rebuild.value.end
    then r.(live := r.rebuild.value.store, folded := r.next, rebuild := None)
    else r
  }

  function Publish<S>(r: Reader<S>): Reader<S> {
    if r.rebuild.Some? then r
    else r.(barriers := ObserveAll(r.barriers, r.observed), observed := [])
  }

  function Floor<S, R, Q>(m: Machine<S, R, Q>, r: Reader<S>): int {
    match r.rebuild
    case Some(b) => Max(m.highWater(r.live), m.highWater(b.store))
    case None => m.highWater(r.live)
  }

  /** The requested offset is out of range: replay from the log start up to the current stable end. */
  function Reset<S, R, Q>(m: Machine<S, R, Q>, r: Reader<S>, end: nat): Reader<S> {
    var floor := Floor(m, r);
    var snapshot := m.raise(m.init, floor);
    if 0 >= end then r.(next := 0, live := snapshot, folded := 0, rebuild := None)
    else r.(next := 0, rebuild := Some(Rebuild(snapshot, end, floor)))
  }

  ghost function Horizon<S>(r: Reader<S>): nat {
    if r.rebuild.Some? then r.rebuild.value.end else r.folded
  }

  ghost predicate RebuildOk<S, R, Q>(m: Machine<S, R, Q>, log: Log<S, R, Q>, r: Reader<S>, b: Rebuild<S>) {
    && r.next < b.end && r.folded <= b.end && Stable(log, b.end)
    && b.store == m.raise(Fold(m, m.init, Visible(log[..r.next])), b.floor)
    && b.floor <= m.highWater(Fold(m, m.init, Visible(log[..b.end])))
  }

  ghost predicate ReaderInv<S, R, Q>(m: Machine<S, R, Q>, log: Log<S, R, Q>, r: Reader<S>) {
    && Stable(log, r.folded) && Stable(log, r.next)
    && r.live == Fold(m, m.init, Visible(log[..r.folded]))
    && (r.rebuild.None? ==> r.next == r.folded)
    && (r.rebuild.Some? ==> RebuildOk(m, log, r, r.rebuild.value))
    && BarriersOk(r.barriers)
    && (forall t <- r.observed :: MarkedBefore(log, t, Horizon(r)))
    && (forall t <- r.barriers.seen :: MarkedBefore(log, t, r.folded))
  }

  lemma ReaderInvEvolves<S, R, Q>(m: Machine<S, R, Q>, a: Log<S, R, Q>, b: Log<S, R, Q>, r: Reader<S>)
    requires ReaderInv(m, a, r) && Evolves(a, b)
    ensures ReaderInv(m, b, r)
  {
    VisibleFixed(a, b, r.folded);
    VisibleFixed(a, b, r.next);
    if r.rebuild.Some? {
      VisibleFixed(a, b, r.rebuild.value.end);
    }
    forall t <- r.observed ensures MarkedBefore(b, t, Horizon(r)) { MarkedMono(a, b, t, Horizon(r), Horizon(r)); }
    forall t <- r.barriers.seen ensures MarkedBefore(b, t, r.folded) { MarkedMono(a, b, t, r.folded, r.folded); }
  }

  lemma FoldSplit<S, R, Q>(m: Machine<S, R, Q>, log: Log<S, R, Q>, i: nat, j: nat)
    requires i <= j <= |log|
    ensures Fold(m, m.init, Visible(log[..j])) == Fold(m, Fold(m, m.init, Visible(log[..i])), Visible(log[i..j]))
  {
    VisibleSplit(log, i, j);
    FoldConcat(m, m.init, Visible(log[..i]), Visible(log[i..j]));
  }

  lemma HighWaterOfPrefix<S(!new), R(!new), Q>(m: Machine<S, R, Q>, log: Log<S, R, Q>, i: nat, j: nat)
    requires Lawful(m) && i <= j <= |log|
    ensures m.highWater(Fold(m, m.init, Visible(log[..i]))) <= m.highWater(Fold(m, m.init, Visible(log[..j])))
  {
    FoldSplit(m, log, i, j);
    HighWaterGrows(m, Fold(m, m.init, Visible(log[..i])), Visible(log[i..j]));
  }

  /** A fetch keeps the live store equal to the fold of the visible log, also when it completes a
      rebuild, and publishes only barriers the live store has passed. */
  lemma FetchKeepsInv<S(!new), R(!new), Q>(m: Machine<S, R, Q>, log: Log<S, R, Q>, r: Reader<S>, upto: nat)
    requires Lawful(m) && ReaderInv(m, log, r) && r.next <= upto && Stable(log, upto)
    ensures ReaderInv(m, log, Fetch(m, r, log, upto))
    ensures Fetch(m, r, log, upto).folded >= r.folded && Fetch(m, r, log, upto).barriers.pending == r.barriers.pending
    ensures var s := Fetch(m, r, log, upto);
            && s.next == upto && (s.rebuild.None? ==> s.folded == upto && s.observed == [])
            && (s.rebuild.None? <==> (r.rebuild.Some? ==> r.rebuild.value.end <= upto))
  {
    hide Lawful, Fold, Visible, MarkedBefore, Tokens, ObserveAll;
    var records, tokens := Visible(log[r.next..upto]), r.observed + Tokens(log[r.next..upto]);
    FoldSplit(m, log, r.next, upto);
    TokensAreMarked(log, r.next, upto);
    ObserveAllEffect(r.barriers, tokens);
    if r.rebuild.Some? {
      var b := r.rebuild.value;
      FoldRaised(m, Fold(m, m.init, Visible(log[..r.next])), b.floor, records);
      if upto >= b.end {
        HighWaterOfPrefix(m, log, b.end, upto);
        RaiseAbsorbed(m, Fold(m, m.init, Visible(log[..upto])), b.floor);
      }
    }
    var bound := if r.rebuild.Some? then Max(r.rebuild.value.end, upto) else upto;
    forall t <- tokens
      ensures MarkedBefore(log, t, bound)
    {
      MarkedMono(log, log, t, if t in r.observed then Horizon(r) else upto, bound);
    }
    forall t <- r.barriers.seen
      ensures MarkedBefore(log, t, Fetch(m, r, log, upto).folded)
    {
      MarkedMono(log, log, t, r.folded, Fetch(m, r, log, upto).folded);
    }
  }

  lemma FloorIsReached<S(!new), R(!new), Q>(m: Machine<S, R, Q>, log: Log<S, R, Q>, r: Reader<S>, end: nat)
    requires Lawful(m) && ReaderInv(m, log, r) && end <= |log| && Horizon(r) <= end
    ensures Floor(m, r) <= m.highWater(Fold(m, m.init, Visible(log[..end])))
  {
    hide Lawful, Fold, Visible, Stable, MarkedBefore, BarriersOk;
    HighWaterOfPrefix(m, log, r.folded, end);
    if r.rebuild.Some? {
      HighWaterOfPrefix(m, log, r.next, end);
      HighWaterOfPrefix(m, log, r.rebuild.value.end, end);
      RaisedHighWater(m, Fold(m, m.init, Visible(log[..r.next])), r.rebuild.value.floor);
      assert m.highWater(r.rebuild.value.store)
          == Max(m.highWater(Fold(m, m.init, Visible(log[..r.next]))), r.rebuild.value.floor);
    }
  }

  /** A reset keeps the invariant, although the live store stays behind the replay. */
  lemma ResetKeepsInv<S(!new), R(!new), Q>(m: Machine<S, R, Q>, log: Log<S, R, Q>, r: Reader<S>, end: nat)
    requires Lawful(m) && ReaderInv(m, log, r) && Stable(log, end) && Horizon(r) <= end
    ensures ReaderInv(m, log, Reset(m, r, end))
    ensures Reset(m, r, end).folded == r.folded && Reset(m, r, end).barriers == r.barriers
  {
    hide Lawful, MarkedBefore, BarriersOk;
    FloorIsReached(m, log, r, end);
    assert log[..0] == [];
    assert Fold(m, m.init, Visible(log[..0])) == m.init;
    if end == 0 {
      RaiseAbsorbed(m, m.init, Floor(m, r));
      assert m.raise(m.init, Floor(m, r)) == m.init;
    } else {
      forall t <- r.observed ensures MarkedBefore(log, t, end) { MarkedMono(log, log, t, Horizon(r), end); }
    }
  }

  /** The replay begins at the start and ends where it was told to; its snapshot inherits the id high waters of the
      live store and of a replay that it interrupts. */
  lemma ResetStartsOver<S(!new), R(!new), Q(!new)>(m: Machine<S, R, Q>, r: Reader<S>, end: nat)
    requires Lawful(m)
    ensures var s := Reset(m, r, end);
            && s.next == 0 && (s.rebuild.Some? <==> end > 0) && s.observed == r.observed
            && var store := if end > 0 then s.rebuild.value.store else s.live;
               && (end > 0 ==> s.rebuild.value.end == end && s.live == r.live)
               && m.highWater(r.live) <= m.highWater(store)
               && (r.rebuild.Some? ==> m.highWater(r.rebuild.value.store) <= m.highWater(store))
  {
    hide Lawful;
    RaisedHighWater(m, m.init, Floor(m, r));
  }
}

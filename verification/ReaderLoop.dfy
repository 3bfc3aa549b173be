/** The reader task as the object it is: barrier sets, cursor, live store and rebuilt snapshot, over
    redelivered records, compacted replays and recreated topics. */
module ReaderLoop {
  import opened Wrappers
  import opened Reader
  import SchemaLog

  // ------------------------------------------------------------------
  // Barriers
  // ------------------------------------------------------------------

  class BarrierTracker {
    var pending: set<nat>
    var seen: set<nat>
    var invalidated: set<nat>

    constructor ()
      ensures View() == Barriers({}, {}, {})
    {
      pending, seen, invalidated := {}, {}, {};
    }

    function View(): Barriers
      reads this
    {
      Barriers(pending, seen, invalidated)
    }

    // `token` is a fresh UUID.
    method ReserveToken(token: nat)
      requires token !in invalidated && BarriersOk(View())
      modifies this
      ensures View() == Reserve(old(View()), token) && BarriersOk(View())
    {
      pending := pending + {token};
    }

    method ObserveToken(token: nat)
      requires BarriersOk(View())
      modifies this
      ensures View() == Observe(old(View()), token) && BarriersOk(View())
    {
      if token in pending {
        seen := seen + {token};
      }
    }

    method Poll(token: nat) returns (poll: Poll)
      requires BarriersOk(View())
      modifies this
      ensures (View(), poll) == PollToken(old(View()), token) && BarriersOk(View())
    {
      if token in invalidated {
        invalidated := invalidated - {token};
        return Invalidated;
      }
      if token !in seen {
        return Pending;
      }
      seen := seen - {token};
      pending := pending - {token};
      return Seen;
    }

    method CancelToken(token: nat)
      requires BarriersOk(View())
      modifies this
      ensures View() == Cancel(old(View()), token) && BarriersOk(View())
    {
      pending := pending - {token};
      seen := seen - {token};
      invalidated := invalidated - {token};
    }

    method InvalidatePending()
      requires BarriersOk(View())
      modifies this
      ensures View() == InvalidateAll(old(View())) && BarriersOk(View())
    {
      var taken := pending;
      pending := {};
      seen := {};
      invalidated := invalidated + taken;
    }
  }

  datatype BarrierCall =
    | ReserveCall(token: nat)
    | ObserveCall(token: nat)
    | PollCall(token: nat)
    | CancelCall(token: nat)
    | InvalidateCall

  function Call(b: Barriers, c: BarrierCall): Barriers {
    match c
    case ReserveCall(t) => Reserve(b, t)
    case ObserveCall(t) => Observe(b, t)
    case PollCall(t) => PollToken(b, t).0
    case CancelCall(t) => Cancel(b, t)
    case InvalidateCall => InvalidateAll(b)
  }

  function Calls(b: Barriers, calls: seq<BarrierCall>): Barriers {
    if calls == [] then b else Call(Calls(b, calls[..|calls| - 1]), calls[|calls| - 1])
  }

  // A token that is neither pending nor seen.
  ghost predicate Retired(b: Barriers, token: nat) { token !in b.pending && token !in b.seen }

  /** Once invalidated, a token that is not reserved again never polls Seen, whatever is called. */
  lemma {:induction false} InvalidatedNeverSeen(b: Barriers, calls: seq<BarrierCall>, token: nat)
    requires BarriersOk(b) && token in b.pending && ReserveCall(token) !in calls
    ensures Retired(Calls(InvalidateAll(b), calls), token) && PollToken(Calls(InvalidateAll(b), calls), token).1 != Seen
  {
    if calls != [] {
      InvalidatedNeverSeen(b, calls[..|calls| - 1], token);
    }
  }

  // ------------------------------------------------------------------
  // The store that is filled
  // ------------------------------------------------------------------

  /** A store folded from records: `view` is what redelivery and compaction preserve, `inherit` takes
      the id high water over from a store that is replaced. */
  datatype Folding<!S, !R, !V> = Folding(
    init: S,
    apply: (S, R) -> S,
    inherit: (S, S) -> S,
    view: S -> V,
    ok: S -> bool,
    encoded: R -> bool)

  function FoldAll<S, R, V>(m: Folding<S, R, V>, s: S, records: seq<R>): S {
    if records == [] then s else m.apply(FoldAll(m, s, records[..|records| - 1]), records[|records| - 1])
  }

  function ViewOf<S, R, V>(m: Folding<S, R, V>, records: seq<R>): V { m.view(FoldAll(m, m.init, records)) }

  ghost predicate Lawful<S(!new), R(!new), V>(m: Folding<S, R, V>) {
    && m.ok(m.init)
    && (forall s, r {:trigger m.apply(s, r)} :: m.ok(s) ==> m.ok(m.apply(s, r)))
    && (forall s, t, r {:trigger m.apply(s, r), m.apply(t, r)} ::
          m.ok(s) && m.ok(t) && m.view(s) == m.view(t) && m.encoded(r) ==>
              m.view(m.apply(s, r)) == m.view(m.apply(t, r)))
    && (forall s, t {:trigger m.inherit(s, t)} :: m.ok(s) ==>
        m.ok(m.inherit(s, t)) && m.view(m.inherit(s, t)) == m.view(s))
    && forall records: seq<R>, from: nat {:trigger records[from..]} :: Redeliverable(m, records, from)
  }

  /** Delivering a suffix again does not change the view. */
  ghost predicate Redeliverable<S, R, V>(m: Folding<S, R, V>, records: seq<R>, from: nat) {
    from <= |records| && (forall r <- records :: m.encoded(r)) ==>
        ViewOf(m, records + records[from..]) == ViewOf(m, records)
  }

  // ------------------------------------------------------------------
  // The visible records of a topic
  // ------------------------------------------------------------------

  /** A visible record as a fetch delivers it; `token` is the barrier it carries. */
  datatype Delivered<R> = Delivered(offset: int, record: R, token: Option<nat>)

  type Topic<R> = seq<Delivered<R>>

  function Records<R>(log: Topic<R>): seq<R> { seq(|log|, i requires 0 <= i < |log| => log[i].record) }

  ghost predicate Ordered<R>(log: Topic<R>) {
    forall i, j :: 0 <= i < j < |log| ==> log[i].offset < log[j].offset
  }

  ghost predicate TopicOk<S, R, V>(m: Folding<S, R, V>, log: Topic<R>) {
    Ordered(log) && forall i :: 0 <= i < |log| ==> m.encoded(log[i].record)
  }

  /** The records below an offset. */
  function Before<R>(log: Topic<R>, offset: int): Topic<R> {
    if log == [] || log[|log| - 1].offset < offset then log else Before(log[..|log| - 1], offset)
  }

  function Between<R>(log: Topic<R>, a: int, b: int): Topic<R>
    requires a <= b
  {
    BeforeMono(log, a, b);
    Before(log, b)[|Before(log, a)|..]
  }

  lemma {:induction false} BeforeMono<R>(log: Topic<R>, a: int, b: int)
    requires a <= b
    ensures Before(log, a) <= Before(log, b) <= log
  {
    if log != [] && log[|log| - 1].offset >= a {
      BeforeMono(log[..|log| - 1], a, b);
    }
  }

  lemma {:induction false} BeforeIs<R>(log: Topic<R>, offset: int, i: nat)
    requires Ordered(log) && i < |log|
    ensures i < |Before(log, offset)| <==> log[i].offset < offset
  {
    if log[|log| - 1].offset >= offset {
      var front := log[..|log| - 1];
      BeforeMono(front, offset, offset);
      if i < |front| {
        BeforeIs(front, offset, i);
      }
    }
  }

  ghost predicate Marked<R>(log: Topic<R>, token: nat, upto: int) {
    exists i :: 0 <= i < |log| && log[i].token == Some(token) && log[i].offset < upto
  }

  // ------------------------------------------------------------------
  // Redelivery onto a store with the same view
  // ------------------------------------------------------------------

  lemma {:induction false} FoldOk<S(!new), R(!new), V>(m: Folding<S, R, V>, s: S, records: seq<R>)
    requires Lawful(m) && m.ok(s)
    ensures m.ok(FoldAll(m, s, records))
  {
    if records != [] {
      FoldOk(m, s, records[..|records| - 1]);
    }
  }

  lemma {:induction false} SameViewAll<S(!new), R(!new), V>(m: Folding<S, R, V>, s: S, t: S, records: seq<R>)
    requires Lawful(m) && m.ok(s) && m.ok(t) && m.view(s) == m.view(t) && forall r <- records :: m.encoded(r)
    ensures m.view(FoldAll(m, s, records)) == m.view(FoldAll(m, t, records))
  {
    if records != [] {
      var front, last := records[..|records| - 1], records[|records| - 1];
      SameViewAll(m, s, t, front);
      FoldOk(m, s, front);
      FoldOk(m, t, front);
      assert m.view(m.apply(FoldAll(m, s, front), last)) == m.view(m.apply(FoldAll(m, t, front), last));
    }
  }

  /** The store has the view of a full replay of these records. */
  ghost predicate Shows<S(!new), R(!new), V>(m: Folding<S, R, V>, s: S, records: seq<R>) {
    m.ok(s) && m.view(s) == ViewOf(m, records)
  }

  lemma FreshShows<S(!new), R(!new), V>(m: Folding<S, R, V>, s: S)
    requires m.ok(s) && m.view(s) == m.view(m.init)
    ensures Shows(m, s, [])
  {}

  lemma ShowsMore<S(!new), R(!new), V>(m: Folding<S, R, V>, s: S, records: seq<R>, more: seq<R>)
    requires Lawful(m) && Shows(m, s, records) && forall r <- more :: m.encoded(r)
    ensures Shows(m, FoldAll(m, s, more), records + more)
  {
    FoldOk(m, m.init, records);
    FoldOk(m, s, more);
    SameViewAll(m, s, FoldAll(m, m.init, records), more);
    FoldConcat(m, m.init, records, more);
  }

  lemma ShowsOnce<S(!new), R(!new), V>(m: Folding<S, R, V>, s: S, records: seq<R>, from: nat)
    requires Lawful(m) && from <= |records| && Shows(m, s, records + records[from..])
    requires forall r <- records :: m.encoded(r)
    ensures Shows(m, s, records)
  {
    assert Redeliverable(m, records, from);
  }

  lemma {:induction false} FoldConcat<S(!new), R(!new), V>(m: Folding<S, R, V>, s: S, a: seq<R>, b: seq<R>)
    ensures FoldAll(m, s, a + b) == FoldAll(m, FoldAll(m, s, a), b)
  {
    if b == [] {
      assert a + b == a;
    } else {
      FoldConcat(m, s, a, b[..|b| - 1]);
      assert (a + b)[..|a + b| - 1] == a + b[..|b| - 1];
    }
  }

  // `again` was delivered before; `rest` is new.
  lemma ShowsAgain<S(!new), R(!new), V>(m: Folding<S, R, V>, s: S, head: seq<R>, again: seq<R>, rest: seq<R>)
    requires Lawful(m) && Shows(m, s, head + again) && forall r <- head + again + rest :: m.encoded(r)
    ensures Shows(m, FoldAll(m, s, again + rest), head + again + rest)
  {
    var prefix := head + again;
    assert (forall r <- again :: r in head + again + rest) && (forall r <- rest :: r in head + again + rest);
    assert (forall r <- prefix :: r in head + again + rest);
    ShowsMore(m, s, prefix, again);
    assert prefix[|head|..] == again;
    ShowsOnce(m, FoldAll(m, s, again), prefix, |head|);
    ShowsMore(m, FoldAll(m, s, again), prefix, rest);
    FoldConcat(m, s, again, rest);
  }

  lemma RecordsEncoded<S(!new), R(!new), V>(m: Folding<S, R, V>, log: Topic<R>)
    requires TopicOk(m, log)
    ensures forall r <- Records(log) :: m.encoded(r)
  {}

  /** Folding the records in [from, upto) onto a store that shows all below `done`, where
      `from <= done <= upto`, makes it show all below `upto`. */
  lemma DeliveredAgain<S(!new), R(!new), V>(m: Folding<S, R, V>, s: S, log: Topic<R>, from: int, done: int, upto: int)
    requires Lawful(m) && TopicOk(m, log) && from <= done <= upto && Shows(m, s, Records(Before(log, done)))
    ensures Shows(m, FoldAll(m, s, Records(Between(log, from, upto))), Records(Before(log, upto)))
  {
    var head, again, rest := Records(Before(log, from)), Records(Between(log, from, done)),
        Records(Between(log, done, upto));
    BetweenParts(log, from, done, upto);
    BeforeMono(log, upto, upto);
    RecordsEncoded(m, Before(log, upto));
    ShowsAgain(m, s, head, again, rest);
  }

  lemma BetweenParts<R>(log: Topic<R>, from: int, done: int, upto: int)
    requires from <= done <= upto
    ensures Records(Before(log, from)) + Records(Between(log, from, done)) == Records(Before(log, done))
    ensures Records(Between(log, from, done)) + Records(Between(log, done, upto)) == Records(Between(log, from, upto))
    ensures Records(Before(log, from)) + Records(Between(log, from, done))
        + Records(Between(log, done, upto)) == Records(Before(log, upto))
  {
    BeforeMono(log, from, done);
    BeforeMono(log, done, upto);
  }

  // ------------------------------------------------------------------
  // A growing topic
  // ------------------------------------------------------------------

  /** From `end` on, what the reader is fed shows the same as the whole topic. */
  ghost predicate Faithful<S(!new), R(!new), V>(m: Folding<S, R, V>, feed: Topic<R>, log: Topic<R>, end: int) {
    forall upto :: end <= upto ==> SameAt(m, feed, log, upto)
  }

  ghost predicate SameAt<S(!new), R(!new), V>(m: Folding<S, R, V>, feed: Topic<R>, log: Topic<R>, upto: int) {
    ViewOf(m, Records(Before(feed, upto))) == ViewOf(m, Records(Before(log, upto)))
  }

  lemma {:induction false} BeforeGrown<R>(log: Topic<R>, more: Topic<R>, upto: int)
    requires Ordered(log + more)
    ensures Before(log + more, upto) == if more != [] && more[0].offset < upto then log + Before(more, upto)
                                        else Before(log, upto)
  {
    if more == [] {
      assert log + more == log;
    } else {
      var last := more[|more| - 1];
      assert (log + more)[|log + more| - 1] == last;
      if last.offset >= upto {
        assert (log + more)[..|log + more| - 1] == log + more[..|more| - 1];
        BeforeGrown(log, more[..|more| - 1], upto);
      } else {
        assert more[0] == (log + more)[|log|];
      }
    }
  }

  lemma AllBelow<R>(log: Topic<R>, upto: int)
    requires forall d <- log :: d.offset < upto
    ensures Before(log, upto) == log
  {
    if log != [] { assert log[|log| - 1] in log; }
  }

  /** A store that shows what was fed shows what the topic holds exactly when the two agree there. */
  lemma ShowsLogIff<S(!new), R(!new), V>(m: Folding<S, R, V>, s: S, feed: Topic<R>, log: Topic<R>, upto: int)
    requires Shows(m, s, Records(Before(feed, upto)))
    ensures Shows(m, s, Records(Before(log, upto))) <==> SameAt(m, feed, log, upto)
  {}

  // ------------------------------------------------------------------
  // The reader task
  // ------------------------------------------------------------------

  datatype Snapshot<S> = Snapshot(store: S, end: int)

  // A fetch may return records below the requested offset; they are skipped.
  function Fresh<R>(batch: Topic<R>, next: int): Topic<R> {
    if batch == [] then []
    else Fresh(batch[..|batch| - 1], next) + if batch[|batch| - 1].offset < next then [] else [batch[|batch| - 1]]
  }

  function TokensOf<R>(log: Topic<R>): seq<nat> {
    if log == [] then []
    else TokensOf(log[..|log| - 1]) + match log[|log| - 1].token case Some(t) => [t] case None => []
  }

  lemma {:induction false} TokensAreMarked<R>(log: Topic<R>, upto: int)
    requires forall d <- log :: d.offset < upto
    ensures forall t <- TokensOf(log) :: Marked(log, t, upto)
  {
    if log != [] {
      var front := log[..|log| - 1];
      TokensAreMarked(front, upto);
      forall t <- TokensOf(log) ensures Marked(log, t, upto) {
        if t in TokensOf(front) {
          var i :| 0 <= i < |front| && front[i].token == Some(t) && front[i].offset < upto;
          assert log[i] == front[i];
        } else {
          assert log[|log| - 1] in log;
        }
      }
    }
  }

  lemma MarkedIn<R>(part: Topic<R>, log: Topic<R>, t: nat, a: int, b: int)
    requires Marked(part, t, a) && a <= b && forall d <- part :: d in log
    ensures Marked(log, t, b)
  {
    var i :| 0 <= i < |part| && part[i].token == Some(t) && part[i].offset < a;
    assert part[i] in log;
    var j :| 0 <= j < |log| && log[j] == part[i];
  }

  class StoreReader<S(!new), R(!new), V(!new)> {
    const m: Folding<S, R, V>
    const barriers: BarrierTracker
    var live: S
    var next: int
    var rebuild: Option<Snapshot<S>>
    var observed: seq<nat>
    var topicId: nat
    ghost var log: Topic<R>             // what became visible in this incarnation of the topic
    ghost var feed: Topic<R>            // what of it the broker delivers into the store being filled
    ghost var liveFeed: Topic<R>        // what of it was delivered into the live store
    ghost var settled: int           // where the running rebuild ends
    ghost var done: int              // everything fed below is folded into the store being filled
    ghost var shown: Option<int>     // the live store shows all of `liveFeed` below; None: an older incarnation

    function Filling(): S
      reads this
    {
      if rebuild.Some? then rebuild.value.store else live
    }

    ghost predicate TopicValid()
      reads this
    {
      && Lawful(m) && TopicOk(m, log) && TopicOk(m, feed) && TopicOk(m, liveFeed)
      && (forall d <- feed :: d in log)
      && (shown.Some? ==> forall d <- liveFeed :: d in log)
    }

    ghost predicate StoresValid()
      reads this
    {
      && next <= done && Shows(m, Filling(), Records(Before(feed, done)))
      && (rebuild.None? ==> shown == Some(done) && liveFeed == feed)
      && (rebuild.Some? ==> rebuild.value.end == settled && next < settled && (shown.Some? ==> shown.value <= settled))
      && (shown.Some? ==> Shows(m, live, Records(Before(liveFeed, shown.value))))
    }

    // Everything observed lies below.
    ghost function Horizon(): int
      reads this
    {
      if rebuild.Some? && done < settled then settled else done
    }

    ghost predicate TokensValid()
      reads this, barriers
    {
      && BarriersOk(barriers.View())
      && (shown.None? ==> barriers.seen == {})
      && (forall t <- barriers.seen :: Marked(log, t, shown.value))
      && forall t <- observed :: Marked(log, t, Horizon())
    }

    ghost predicate Valid()
      reads this, barriers
    {
      TopicValid() && StoresValid() && TokensValid()
    }

    /** The token lies below an offset up to which the live store shows every record delivered to it. */
    ghost predicate Reached(token: nat)
      reads this
    {
      shown.Some? && Marked(log, token, shown.value) && Shows(m, live, Records(Before(liveFeed, shown.value)))
    }

    /** What a barrier is for: the live store shows every record visible before the token's. */
    ghost predicate Passed(token: nat)
      reads this
    {
      shown.Some? && Marked(log, token, shown.value) && Shows(m, live, Records(Before(log, shown.value)))
    }

    constructor (m: Folding<S, R, V>, topicId: nat)
      requires Lawful(m)
      ensures Valid() && fresh(barriers) && barriers.View() == Barriers({}, {}, {})
      ensures this.m == m && this.topicId == topicId && live == m.init && next == 0 && rebuild.None? && observed == []
      ensures log == [] && feed == [] && done == 0 && shown == Some(0)
    {
      this.m, this.topicId := m, topicId;
      barriers := new BarrierTracker();
      live, next, rebuild, observed := m.init, 0, None, [];
      log, feed, liveFeed, settled, done, shown := [], [], [], 0, 0, Some(0);
      new;
      assert Records(log) == [];
    }

    // More records become visible, at or above what was already fetched. A cleaner may take some of them
    // away before they are read: `fed` are those that will be delivered.
    ghost method Appear(more: Topic<R>, fed: Topic<R>)
      requires Valid() && TopicOk(m, log + more) && Ordered(fed) && forall d <- fed :: d in more
      requires forall d <- more :: done <= d.offset && (shown.Some? ==> shown.value <= d.offset)
      modifies this`log, this`feed, this`liveFeed
      ensures Valid() && log == old(log) + more && feed == old(feed) + fed
      ensures liveFeed == if rebuild.None? then feed else old(liveFeed)
    {
      hide Lawful, Shows, ViewOf, Marked, Records, Before, TopicOk, Ordered;
      FeedGrows(m, log, feed, more, fed);
      NothingBelow(m, feed, fed, done);
      MarksStay(log, more);
      log := log + more;
      feed := feed + fed;
      if rebuild.None? { liveFeed := feed; }
    }

    method ApplyBatch(batch: Topic<R>)
      modifies this`live, this`rebuild, this`observed
      ensures Filling() == FoldAll(m, old(Filling()), Records(Fresh(batch, next)))
      ensures observed == old(observed) + TokensOf(Fresh(batch, next))
      ensures rebuild.Some? == old(rebuild.Some?)
      ensures rebuild.Some? ==> rebuild.value.end == old(rebuild.value.end) && live == old(live)
    {
      hide FoldAll, Fresh, Records, TokensOf;
      NothingFresh(m, old(Filling()), batch, next);
      for i := 0 to |batch|
        invariant Filling() == FoldAll(m, old(Filling()), Records(Fresh(batch[..i], next)))
        invariant observed == old(observed) + TokensOf(Fresh(batch[..i], next))
        invariant rebuild.Some? == old(rebuild.Some?)
        invariant rebuild.Some? ==> rebuild.value.end == old(rebuild.value.end) && live == old(live)
      {
        var d := batch[i];
        FreshStep(m, old(Filling()), batch, i, next);
        if d.offset < next {
          continue;
        }
        if d.token.Some? {
          observed := observed + [d.token.value];
        }
        if rebuild.Some? {
          rebuild := Some(rebuild.value.(store := m.apply(rebuild.value.store, d.record)));
        } else {
          live := m.apply(live, d.record);
        }
      }
      assert batch[..|batch|] == batch;
    }

    method CompleteRebuild()
      modifies this`live, this`rebuild
      ensures if old(rebuild.Some? && next >= rebuild.value.end) then rebuild.None? && live == old(rebuild.value.store)
              else rebuild == old(rebuild) && live == old(live)
    {
      if rebuild.Some? && next >= rebuild.value.end {
        live := rebuild.value.store;
        rebuild := None;
      }
    }

    method Publish()
      requires BarriersOk(barriers.View())
      modifies this`observed, barriers
      ensures observed == [] && BarriersOk(barriers.View())
      ensures barriers.View() == ObserveAll(old(barriers.View()), old(observed))
    {
      ghost var tokens := observed;
      while observed != []
        invariant BarriersOk(barriers.View())
        invariant ObserveAll(old(barriers.View()), tokens) == ObserveAll(barriers.View(), observed)
        decreases |observed|
      {
        barriers.ObserveToken(observed[0]);
        observed := observed[1..];
      }
    }

    // The records in [next, upto) are folded, but the cursor has not moved.
    method Ingest(batch: Topic<R>, ghost upto: int)
      requires Valid() && done <= upto && Fresh(batch, next) == Between(feed, next, upto)
      modifies this`live, this`rebuild, this`observed, this`done, this`shown
      ensures Valid() && done == upto && observed == old(observed) + TokensOf(Between(feed, next, upto))
      ensures rebuild.Some? == old(rebuild.Some?)
      ensures rebuild.Some? ==> rebuild.value.end == old(rebuild.value.end) && live == old(live) && shown == old(shown)
    {
      hide Lawful, Shows, ViewOf, Marked;
      FreshIsMarked(feed, log, next, upto);
      DeliveredAgain(m, Filling(), feed, next, done, upto);
      ghost var horizon := Horizon();
      assert forall t <- observed :: Marked(log, t, horizon);
      ApplyBatch(batch);
      if rebuild.None? { shown := Some(upto); }
      MarksGrow(log, done, upto);
      MarksGrow(log, horizon, SchemaLog.Max(horizon, upto));
      MarksGrow(log, upto, SchemaLog.Max(horizon, upto));
      done := upto;
    }

    method Advance(cursor: int)
      requires Valid() && cursor <= done
      modifies this`live, this`next, this`rebuild, this`observed, this`shown, this`liveFeed, barriers
      ensures Valid() && next == SchemaLog.Max(old(next), cursor)
      ensures if old(rebuild.None?) || next >= old(rebuild.value.end) then rebuild.None?
              else rebuild == old(rebuild) && live == old(live) && shown == old(shown) && liveFeed == old(liveFeed)
      ensures rebuild.None? ==> observed == [] && barriers.View() == ObserveAll(old(barriers.View()), old(observed))
    {
      hide Lawful, Shows, ViewOf, Marked, Records, Before, TopicOk, Ordered;
      next := SchemaLog.Max(next, cursor);
      if rebuild.Some? && next >= rebuild.value.end {
        if shown.Some? { MarksGrow(log, shown.value, done); }
        shown, liveFeed := Some(done), feed;
      }
      CompleteRebuild();
      if rebuild.None? {
        ObserveAllEffect(barriers.View(), observed);
        Publish();
      }
    }

    /** One fetch response: `batch` holds the fed records in [next, upto), where what was delivered
        before is delivered again if the last response carried no cursor. */
    method OnFetch(batch: Topic<R>, cursor: Option<int>, ghost upto: int)
      requires Valid() && done <= upto && Fresh(batch, next) == Between(feed, next, upto)
      requires cursor.Some? ==> cursor.value <= upto
      modifies this, barriers
      ensures Valid() && log == old(log) && feed == old(feed) && topicId == old(topicId) && done == upto
      ensures next == if cursor.Some? then SchemaLog.Max(old(next), cursor.value) else old(next)
      ensures if old(rebuild.None?) || (cursor.Some? && next >= old(rebuild.value.end)) then rebuild.None?
              else
                && rebuild.Some? && rebuild.value.end == old(rebuild.value.end)
                && live == old(live) && shown == old(shown) && liveFeed == old(liveFeed)
      ensures var tokens := old(observed) + TokensOf(Between(old(feed), old(next), upto));
              if cursor.Some? && rebuild.None?
              then observed == [] && barriers.View() == ObserveAll(old(barriers.View()), tokens)
              else cursor.None? ==> observed == tokens && barriers.View() == old(barriers.View())
    {
      Ingest(batch, upto);
      if cursor.Some? {
        Advance(cursor.value);
      }
    }

    /** A fresh snapshot replaces the live store at once when there is nothing to replay. */
    method BeginRebuild(previous: Option<Snapshot<S>>, start: int, end: int, preserve: bool)
      requires Lawful(m)
      modifies this`live, this`next, this`rebuild
      ensures next == start
      ensures if start >= end then rebuild.None? && m.ok(live) && m.view(live) == m.view(m.init)
              else
                && live == old(live) && rebuild.Some? && rebuild.value.end == end && m.ok(rebuild.value.store)
                && m.view(rebuild.value.store) == m.view(m.init)
    {
      var snapshot := m.init;
      if preserve {
        snapshot := m.inherit(snapshot, live);
        if previous.Some? {
          snapshot := m.inherit(snapshot, previous.value.store);
        }
      }
      next := start;
      if start >= end {
        live := snapshot;
        rebuild := None;
      } else {
        rebuild := Some(Snapshot(snapshot, end));
      }
    }

    // What is replayed from `start`: any records of the topic, for a cleaner may be at work.
    ghost predicate Replayable(feed: Topic<R>, log: Topic<R>, start: int)
      reads this
    {
      TopicOk(m, log) && TopicOk(m, feed) && (forall d <- feed :: d in log) && Before(feed, start) == []
    }

    // The store to fill starts afresh; the live one stays unless there is nothing to replay.
    method Refill(previous: Option<Snapshot<S>>, start: int, end: int, preserve: bool, ghost replay: Topic<R>)
      requires Lawful(m) && Replayable(replay, log, start) && TopicOk(m, liveFeed)
      requires shown.Some? ==>
                 && shown.value <= end && Shows(m, live, Records(Before(liveFeed, shown.value)))
                 && forall d <- liveFeed :: d in log
      modifies this`live, this`next, this`rebuild, this`feed, this`liveFeed, this`settled, this`done, this`shown
      ensures TopicValid() && StoresValid()
      ensures feed == replay && next == start == done && settled == end
      ensures if start < end then rebuild.Some? && live == old(live) && shown == old(shown) && liveFeed == old(liveFeed)
              else rebuild.None?
    {
      ghost var nothing: Topic<R> := [];
      assert Records(nothing) == [];
      hide Lawful, Shows, ViewOf, Records, Before, TopicOk;
      BeginRebuild(previous, start, end, preserve);
      feed, settled, done := replay, end, start;
      FreshShows(m, Filling());
      if start >= end { shown, liveFeed := Some(start), feed; }
    }

    /** The requested history was compacted away: replay what is left of the topic. */
    method OnReset(start: int, end: int, ghost replay: Topic<R>)
      requires Valid() && Replayable(replay, log, start) && done <= end && (rebuild.Some? ==> settled <= end)
      modifies this`live, this`next, this`rebuild, this`feed, this`liveFeed, this`settled, this`done, this`shown
      ensures Valid() && feed == replay && next == start == done && settled == end
      ensures if start < end
              then
                && rebuild.Some? && rebuild.value.end == end
                && live == old(live) && shown == old(shown) && liveFeed == old(liveFeed)
              else rebuild.None?
    {
      hide Lawful, Shows, ViewOf, Marked, Records, Before, TopicOk, Ordered, Replayable;
      MarksGrow(log, Horizon(), end);
      if shown.Some? { MarksGrow(log, shown.value, end); }
      MarksGrow(log, end, SchemaLog.Max(start, end));
      Refill(rebuild, start, end, true, replay);
    }

    // Another incarnation of the topic is followed from here on.
    method Replay(start: int, end: int, ghost newLog: Topic<R>, ghost newFeed: Topic<R>)
      requires Lawful(m) && Replayable(newFeed, newLog, start) && TopicOk(m, liveFeed)
      requires BarriersOk(barriers.View()) && barriers.seen == {} && observed == []
      modifies this`live, this`next, this`rebuild, this`log, this`feed, this`liveFeed
      modifies this`settled, this`done, this`shown
      ensures Valid() && log == newLog && feed == newFeed && next == start == done
      ensures start < end ==> rebuild.Some? && rebuild.value.end == end && shown.None? && live == old(live)
      ensures start >= end ==> rebuild.None?
    {
      hide Lawful, Shows, ViewOf, Marked, Records, Before, TopicOk;
      log, shown := newLog, None;
      Refill(None, start, end, false, newFeed);
    }

    /** A connection to the topic leader. A recreated topic invalidates every pending barrier and, once
        its bounds are known, is replayed from scratch. */
    method OnConnected(resolved: nat, bounds: Option<(int, int)>, ghost newLog: Topic<R>,
            ghost newFeed: Topic<R>) returns (ready: bool)
      requires Valid() && (bounds.Some? ==> Replayable(newFeed, newLog, bounds.value.0))
      modifies this, barriers
      ensures Valid() && ready == (resolved == old(topicId) || bounds.Some?) && (ready ==> topicId == resolved)
      ensures resolved == old(topicId) || bounds.None? ==>
                && log == old(log) && feed == old(feed) && next == old(next) && done == old(done)
                && rebuild == old(rebuild) && live == old(live) && shown == old(shown) && liveFeed == old(liveFeed)
      ensures resolved == old(topicId) ==> barriers.View() == old(barriers.View()) && observed == old(observed)
      ensures resolved != old(topicId) ==> observed == [] && barriers.View() == InvalidateAll(old(barriers.View()))
      ensures resolved != old(topicId) && bounds.Some? ==>
                && log == newLog && feed == newFeed && next == bounds.value.0 == done
                && if bounds.value.0 >= bounds.value.1 then rebuild.None?
                   else
                     && rebuild.Some? && rebuild.value.end == bounds.value.1
                     && live == old(live) && shown.None?
    {
      if resolved != topicId {
        observed := [];
        barriers.InvalidatePending();
        if bounds.None? {
          return false;
        }
        Replay(bounds.value.0, bounds.value.1, newLog, newFeed);
      }
      topicId := resolved;
      return true;
    }

    /** A barrier is reported as seen only when the live store of the current topic incarnation shows every
        record delivered before it; it shows every record visible before it exactly when what was delivered
        shows that, too. */
    method PollBarrier(token: nat) returns (poll: Poll)
      requires Valid()
      modifies barriers
      ensures Valid() && (barriers.View(), poll) == PollToken(old(barriers.View()), token)
      ensures poll.Seen? ==> Reached(token) && (Passed(token) <==> SameAt(m, liveFeed, log, shown.value))
      ensures old(token in barriers.invalidated) ==> poll.Invalidated?
    {
      poll := barriers.Poll(token);
    }
  }

  lemma MarksGrow<R>(log: Topic<R>, a: int, b: int)
    requires a <= b
    ensures forall t :: Marked(log, t, a) ==> Marked(log, t, b)
  {
    forall t | Marked(log, t, a) ensures Marked(log, t, b) { MarkedIn(log, log, t, a, b); }
  }

  lemma NothingFresh<S(!new), R(!new), V>(m: Folding<S, R, V>, s: S, batch: Topic<R>, next: int)
    ensures FoldAll(m, s, Records(Fresh(batch[..0], next))) == s && TokensOf(Fresh(batch[..0], next)) == []
  {}

  lemma FreshStep<S(!new), R(!new), V>(m: Folding<S, R, V>, s: S, batch: Topic<R>, i: nat, next: int)
    requires i < |batch|
    ensures var a, b, d := Fresh(batch[..i], next), Fresh(batch[..i + 1], next), batch[i];
            if d.offset < next then b == a
            else FoldAll(m, s, Records(b)) == m.apply(FoldAll(m, s, Records(a)), d.record)
                 && TokensOf(b) == TokensOf(a) + match d.token case Some(t) => [t] case None => []
  {
    var a, d := Fresh(batch[..i], next), batch[i];
    assert batch[..i + 1][..i] == batch[..i];
    if d.offset >= next {
      assert (a + [d])[..|a|] == a && Records(a + [d])[..|a|] == Records(a);
    }
  }

  lemma FreshIsMarked<R>(feed: Topic<R>, log: Topic<R>, next: int, upto: int)
    requires Ordered(feed) && next <= upto && forall d <- feed :: d in log
    ensures forall t <- TokensOf(Between(feed, next, upto)) :: Marked(log, t, upto)
  {
    var part := Between(feed, next, upto);
    BeforeMono(feed, next, upto);
    forall d <- part ensures d in feed && d.offset < upto {
      var i :| 0 <= i < |part| && part[i] == d;
      BeforeIs(feed, upto, |Before(feed, next)| + i);
    }
    TokensAreMarked(part, upto);
    forall t <- TokensOf(part) ensures Marked(log, t, upto) { MarkedIn(part, log, t, upto, upto); }
  }

  lemma FeedGrows<S(!new), R(!new), V>(m: Folding<S, R, V>, log: Topic<R>, feed: Topic<R>, more: Topic<R>,
          fed: Topic<R>)
    requires TopicOk(m, log + more) && TopicOk(m, feed) && Ordered(fed)
    requires (forall d <- feed :: d in log) && forall d <- fed :: d in more
    ensures TopicOk(m, feed + fed) && forall d <- feed + fed :: d in log + more
  {
    forall i, j | 0 <= i < j < |feed + fed| ensures (feed + fed)[i].offset < (feed + fed)[j].offset {
      if i < |feed| <= j {
        assert feed[i] in feed && fed[j - |feed|] in fed;
        var k :| 0 <= k < |log| && log[k] == feed[i];
        var l :| 0 <= l < |more| && more[l] == fed[j - |feed|];
        assert (log + more)[k] == feed[i] && (log + more)[|log| + l] == fed[j - |feed|];
      } else if |feed| <= i {
        assert (feed + fed)[i] == fed[i - |feed|] && (feed + fed)[j] == fed[j - |feed|];
      }
    }
    forall i | 0 <= i < |feed + fed| ensures m.encoded((feed + fed)[i].record) {
      if i >= |feed| {
        assert fed[i - |feed|] in fed;
        var l :| 0 <= l < |more| && more[l] == fed[i - |feed|];
        assert (log + more)[|log| + l] == fed[i - |feed|];
      }
    }
  }

  lemma NothingBelow<S, R, V>(m: Folding<S, R, V>, feed: Topic<R>, fed: Topic<R>, done: int)
    requires TopicOk(m, feed + fed) && forall d <- fed :: done <= d.offset
    ensures Before(feed + fed, done) == Before(feed, done)
  {
    BeforeGrown(feed, fed, done);
    if fed != [] { assert fed[0] in fed; }
  }

  lemma MarksStay<R>(log: Topic<R>, more: Topic<R>)
    ensures forall t, upto :: Marked(log, t, upto) ==> Marked(log + more, t, upto)
  {
    forall t, upto | Marked(log, t, upto) ensures Marked(log + more, t, upto) {
      MarkedIn(log, log + more, t, upto, upto);
    }
  }
}

/** The `_schemas` topic as a read-committed consumer sees it, for an arbitrary fold of records. */
module SchemaLog {

  /** A replicated state machine: what one record does to a store, what one request decides from
      the snapshots it reads, and the id high water that a rebuilt snapshot inherits. */
  datatype Machine<!S, !R, !Q> = Machine(
    init: S,
    apply: (S, R) -> S,
    plan: (Q, seq<S>) -> seq<R>,
    highWater: S -> int,
    raise: (S, int) -> S)

  function Max(a: int, b: int): int { if a < b then b else a }

  ghost predicate Lawful<S(!new), R(!new), Q>(m: Machine<S, R, Q>) {
    && (forall s, k {:trigger m.raise(s, k)} :: k <= m.highWater(s) ==> m.raise(s, k) == s)
    && (forall s, k, r {:trigger m.apply(m.raise(s, k), r)} :: m.apply(m.raise(s, k), r) == m.raise(m.apply(s, r), k))
    && (forall s, r {:trigger m.apply(s, r)} :: m.highWater(s) <= m.highWater(m.apply(s, r)))
    && (forall s, j, k {:trigger m.raise(m.raise(s, j), k)} :: m.raise(m.raise(s, j), k) == m.raise(s, Max(j, k)))
    && (forall s, k {:trigger m.highWater(m.raise(s, k))} :: m.highWater(m.raise(s, k)) == Max(m.highWater(s), k))
  }

  function Fold<S, R, Q>(m: Machine<S, R, Q>, start: S, records: seq<R>): S {
    if records == [] then start
    else m.apply(Fold(m, start, records[..|records| - 1]), records[|records| - 1])
  }

  lemma RaiseAbsorbed<S(!new), R(!new), Q>(m: Machine<S, R, Q>, s: S, k: int)
    requires Lawful(m) && k <= m.highWater(s)
    ensures m.raise(s, k) == s
  {}

  lemma RaisedHighWater<S(!new), R(!new), Q>(m: Machine<S, R, Q>, s: S, k: int)
    requires Lawful(m)
    ensures m.highWater(m.raise(s, k)) == Max(m.highWater(s), k)
  {}

  lemma {:induction false} FoldConcat<S, R, Q>(m: Machine<S, R, Q>, start: S, a: seq<R>, b: seq<R>)
    ensures Fold(m, start, a + b) == Fold(m, Fold(m, start, a), b)
  {
    if b == [] {
      assert a + b == a;
    } else {
      FoldConcat(m, start, a, b[..|b| - 1]);
      assert (a + b)[..|a + b| - 1] == a + b[..|b| - 1];
    }
  }

  lemma {:induction false} FoldRaised<S(!new), R(!new), Q>(m: Machine<S, R, Q>, start: S, k: int, records: seq<R>)
    requires Lawful(m)
    ensures Fold(m, m.raise(start, k), records) == m.raise(Fold(m, start, records), k)
  {
    if records != [] {
      FoldRaised(m, start, k, records[..|records| - 1]);
    }
  }

  lemma {:induction false} HighWaterGrows<S(!new), R(!new), Q>(m: Machine<S, R, Q>, start: S, records: seq<R>)
    requires Lawful(m)
    ensures m.highWater(start) <= m.highWater(Fold(m, start, records))
  {
    if records != [] {
      HighWaterGrows(m, start, records[..|records| - 1]);
    }
  }

  // ------------------------------------------------------------------
  // The log
  // ------------------------------------------------------------------

  // `checked`: the offsets request validated the group generation; `requested`: the commit was sent.
  datatype Status = Open(checked: bool, requested: bool) | Committed | Aborted

  /** The gated write a transaction belongs to: `barrier` is the offset of its ordering marker. */
  datatype Write<S, Q> = Write(node: nat, generation: nat, barrier: nat, request: Q, snapshots: seq<S>)

  datatype Entry<S, R, Q> =
    | Marker(token: nat)
    | Txn(record: R, status: Status, write: Write<S, Q>, index: nat)

  type Log<S, R, Q> = seq<Entry<S, R, Q>>

  /** The records a read-committed reader delivers, in offset order. */
  function Visible<S, R, Q>(log: Log<S, R, Q>): seq<R> {
    if log == [] then []
    else
      var last := log[|log| - 1];
      Visible(log[..|log| - 1]) + if last.Txn? && last.status.Committed? then [last.record] else []
  }

  lemma {:induction false} VisibleConcat<S, R, Q>(a: Log<S, R, Q>, b: Log<S, R, Q>)
    ensures Visible(a + b) == Visible(a) + Visible(b)
  {
    if b == [] {
      assert a + b == a;
    } else {
      VisibleConcat(a, b[..|b| - 1]);
      assert (a + b)[..|a + b| - 1] == a + b[..|b| - 1];
    }
  }

  lemma VisibleSplit<S, R, Q>(log: Log<S, R, Q>, i: nat, j: nat)
    requires i <= j <= |log|
    ensures Visible(log[..j]) == Visible(log[..i]) + Visible(log[i..j])
  {
    assert log[..j] == log[..i] + log[i..j];
    VisibleConcat(log[..i], log[i..j]);
  }

  /** No transaction below `p` is still open: `p` is at or below the last stable offset. */
  ghost predicate Stable<S, R, Q>(log: Log<S, R, Q>, p: nat) {
    p <= |log| && forall i :: 0 <= i < p && log[i].Txn? ==> !log[i].status.Open?
  }

  /** Entries are only appended, and only open transactions change status. */
  ghost predicate Evolves<S, R, Q>(a: Log<S, R, Q>, b: Log<S, R, Q>) {
    && |a| <= |b|
    && forall i :: 0 <= i < |a| ==>
        b[i] == a[i] || (a[i].Txn? && a[i].status.Open? && b[i].Txn? && b[i] == a[i].(status := b[i].status))
  }

  lemma {:induction false} VisibleFixed<S, R, Q>(a: Log<S, R, Q>, b: Log<S, R, Q>, p: nat)
    requires Evolves(a, b) && Stable(a, p)
    ensures a[..p] == b[..p] && Stable(b, p) && Visible(a[..p]) == Visible(b[..p])
  {
    assert forall i :: 0 <= i < p ==> a[i] == b[i];
  }

  ghost predicate MarkedBefore<S, R, Q>(log: Log<S, R, Q>, token: nat, p: nat) {
    exists i :: 0 <= i < p && i < |log| && log[i] == Marker(token)
  }

  lemma MarkedMono<S, R, Q>(a: Log<S, R, Q>, b: Log<S, R, Q>, token: nat, p: nat, q: nat)
    requires Evolves(a, b) && p <= q && MarkedBefore(a, token, p)
    ensures MarkedBefore(b, token, q)
  {
    var i :| 0 <= i < p && i < |a| && a[i] == Marker(token);
    assert b[i] == Marker(token);
  }

  function Tokens<S, R, Q>(log: Log<S, R, Q>): seq<nat> {
    if log == [] then []
    else
      var last := log[|log| - 1];
      Tokens(log[..|log| - 1]) + if last.Marker? then [last.token] else []
  }

  lemma {:induction false} TokensAreMarked<S, R, Q>(log: Log<S, R, Q>, i: nat, j: nat)
    requires i <= j <= |log|
    ensures forall t <- Tokens(log[i..j]) :: MarkedBefore(log, t, j)
  {
    if i < j {
      TokensAreMarked(log, i, j - 1);
      assert log[i..j][..j - i - 1] == log[i..j - 1];
      forall t <- Tokens(log[i..j])
        ensures MarkedBefore(log, t, j)
      {
        if t in Tokens(log[i..j - 1]) {
          MarkedMono(log, log, t, j - 1, j);
        } else {
          assert log[j - 1] == Marker(t);
        }
      }
    }
  }
}

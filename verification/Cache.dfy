/** The writer-schema cache under interleaved reads, background completions, seeds and prewarms. */
module Cache {
  import opened Wrappers

  // ------------------------------------------------------------------
  // Retry delays
  // ------------------------------------------------------------------

  /** Backoff bounds in seconds; a policy is built only for 0 < initial <= maximum. */
  datatype Policy = Policy(initial: real, maximum: real)

  ghost predicate Valid(p: Policy) { 0.0 < p.initial <= p.maximum }

  function MinReal(a: real, b: real): real { if a <= b then a else b }

  function Power2(n: nat): nat { if n == 0 then 1 else 2 * Power2(n - 1) }

  // Saturating attempt - 1, at most 7.
  function Exponent(attempt: nat): nat { if attempt == 0 then 0 else if attempt > 8 then 7 else attempt - 1 }

  // The id decides the jitter, in percent; the product wraps at 32 bits.
  function JitterPercent(id: nat): nat { (id * 1_103_515_245) % 0x1_0000_0000 % 26 }

  function Exponential(p: Policy, attempt: nat): real { p.initial * Power2(Exponent(attempt)) as real }

  function Jitter(id: nat): (j: real)
    ensures j >= 0.0
  {
    JitterPercent(id) as real / 100.0
  }

  function Jittered(delay: real, jitter: real, maximum: real): real {
    var capped := MinReal(delay, maximum);
    MinReal(capped + capped * jitter, maximum)
  }

  function RetryDelay(p: Policy, id: nat, attempt: nat): real {
    Jittered(Exponential(p, attempt), Jitter(id), p.maximum)
  }

  lemma {:induction false} Power2Mono(a: nat, b: nat)
    requires a <= b
    ensures 1 <= Power2(a) <= Power2(b)
  {
    if a < b {
      Power2Mono(a, b - 1);
    } else if a > 0 {
      Power2Mono(a - 1, a - 1);
    }
  }

  lemma Scaled(x: real, m: nat, n: nat)
    requires 0.0 < x && 1 <= m <= n
    ensures x <= x * m as real <= x * n as real
  {
    assert x * (n as real - m as real) >= 0.0;
    assert x * (m as real - 1.0) >= 0.0;
  }

  lemma JitterMono(x: real, y: real, j: real)
    requires 0.0 < x <= y && 0.0 <= j
    ensures x <= x + x * j <= y + y * j
  {
    assert (y - x) * j >= 0.0;
    assert x * j >= 0.0;
  }

  lemma JitteredMono(initial: real, x: real, y: real, j: real, maximum: real)
    requires 0.0 < initial <= x <= y && initial <= maximum && 0.0 <= j
    ensures initial <= Jittered(x, j, maximum) <= Jittered(y, j, maximum) <= maximum
  {
    JitterMono(MinReal(x, maximum), MinReal(y, maximum), j);
  }

  lemma ExponentialMono(p: Policy, attempt: nat, later: nat)
    requires Valid(p) && attempt <= later
    ensures p.initial <= Exponential(p, attempt) <= Exponential(p, later)
  {
    Power2Mono(Exponent(attempt), Exponent(later));
    Scaled(p.initial, Power2(Exponent(attempt)), Power2(Exponent(later)));
  }

  /** Delays never shrink with the attempt count and stay between the two bounds. */
  lemma DelaysGrow(p: Policy, id: nat, attempt: nat, later: nat)
    requires Valid(p) && attempt <= later
    ensures p.initial <= RetryDelay(p, id, attempt) <= RetryDelay(p, id, later) <= p.maximum
  {
    hide Jittered, Exponential, Jitter;
    ExponentialMono(p, attempt, later);
    JitteredMono(p.initial, Exponential(p, attempt), Exponential(p, later), Jitter(id), p.maximum);
  }

  /** Until the eighth attempt the delay before capping doubles with each; after it, it stays. */
  lemma DelaysDouble(p: Policy, attempt: nat)
    ensures Exponential(p, 0) == Exponential(p, 1) == p.initial
    ensures Exponential(p, attempt + 1) ==
              if attempt == 0 || attempt >= 8 then Exponential(p, attempt) else 2.0 * Exponential(p, attempt)
  {
    assert Power2(0) == 1;
    if 0 < attempt < 8 {
      assert Power2(attempt) == 2 * Power2(attempt - 1);
      Doubled(p.initial, Power2(attempt - 1));
    }
  }

  lemma Doubled(x: real, n: nat)
    ensures x * (2 * n) as real == 2.0 * (x * n as real)
  {}

  lemma JitterBounded(id: nat)
    ensures 0.0 <= Jitter(id) <= 0.25
  {}

  lemma CappedJitter(x: real, j: real, maximum: real)
    requires 0.0 < x && 0.0 < maximum && 0.0 <= j <= 0.25
    ensures var capped := MinReal(x, maximum); capped <= Jittered(x, j, maximum) <= MinReal(1.25 * capped, maximum)
  {
    var capped := MinReal(x, maximum);
    assert capped * (0.25 - j) >= 0.0;
    assert capped * j >= 0.0;
  }

  /** A delay is the doubled one capped at the maximum, or up to a quarter more, never beyond the maximum. */
  lemma DelayIsCapped(p: Policy, id: nat, attempt: nat)
    requires Valid(p)
    ensures var capped := MinReal(Exponential(p, attempt), p.maximum);
            capped <= RetryDelay(p, id, attempt) <= MinReal(1.25 * capped, p.maximum)
  {
    ExponentialMono(p, attempt, attempt);
    JitterBounded(id);
    hide Exponential, Jitter, Jittered, MinReal;
    CappedJitter(Exponential(p, attempt), Jitter(id), p.maximum);
  }

  // ------------------------------------------------------------------
  // The cache as a value
  // ------------------------------------------------------------------

  datatype WriterSchema = WriterSchema(schema: string, references: map<string, string>, order: seq<string>)

  datatype Inner = Inner(
    schemas: map<nat, WriterSchema>,
    unavailable: map<nat, string>,
    fetching: set<nat>,
    retryAfter: map<nat, real>,
    attempts: map<nat, nat>)

  const EMPTY: Inner := Inner(map[], map[], {}, map[], map[])

  datatype Outcome = Served(schema: WriterSchema) | Unavailable(reason: string) | Pending

  datatype Fetched = Resolved(schema: WriterSchema) | Transient | Terminal(reason: string)

  const MAX_ATTEMPTS: nat := 0xffff_ffff

  function ReadOutcome(c: Inner, id: nat): Outcome {
    if id in c.schemas then Served(c.schemas[id])
    else if id in c.unavailable then Unavailable(c.unavailable[id]) else Pending
  }

  /** Whether a read spawns a fetch. */
  predicate Spawns(c: Inner, id: nat, now: real) {
    ReadOutcome(c, id).Pending? && !(id in c.retryAfter && c.retryAfter[id] > now) && id !in c.fetching
  }

  function AfterRead(c: Inner, id: nat, now: real): Inner {
    if Spawns(c, id, now) then c.(fetching := c.fetching + {id}) else c
  }

  function Install(c: Inner, id: nat, schema: WriterSchema): Inner {
    c.(schemas := c.schemas[id := schema], unavailable := c.unavailable - {id}, retryAfter := c.retryAfter - {id},
            attempts := c.attempts - {id})
  }

  function NextAttempt(c: Inner, id: nat): nat {
    if id !in c.attempts then 1 else if c.attempts[id] >= MAX_ATTEMPTS then MAX_ATTEMPTS else c.attempts[id] + 1
  }

  function AfterFetch(c: Inner, p: Policy, id: nat, fetched: Fetched, now: real): Inner {
    var d := c.(fetching := c.fetching - {id});
    match fetched
    case Resolved(schema) => Install(d, id, schema)
    case Transient =>
      var attempt := NextAttempt(c, id);
      d.(attempts := d.attempts[id := attempt], retryAfter := d.retryAfter[id := now + RetryDelay(p, id, attempt)])
    case Terminal(reason) =>
      d.(unavailable := d.unavailable[id := reason], retryAfter := d.retryAfter - {id}, attempts := d.attempts - {id})
  }

  // Reads of the id answer and fetch in both caches alike.
  ghost predicate ReadsAlike(c: Inner, d: Inner, id: nat) {
    && ReadOutcome(d, id) == ReadOutcome(c, id) && (id in d.fetching <==> id in c.fetching)
    && forall now :: Spawns(d, id, now) == Spawns(c, id, now)
  }

  // Reads of the other ids answer and fetch as before.
  ghost predicate OthersKept(c: Inner, d: Inner, id: nat) {
    forall other | other != id :: ReadsAlike(c, d, other)
  }

  // From now on reads of the id answer with this schema and fetch nothing.
  ghost predicate Serves(c: Inner, id: nat, schema: WriterSchema) {
    ReadOutcome(c, id) == Served(schema) && forall now :: !Spawns(c, id, now)
  }

  // What a completed fetch means to later reads of its id.
  ghost predicate Settles(c: Inner, d: Inner, p: Policy, id: nat, fetched: Fetched, now: real) {
    && id !in d.fetching
    && match fetched
       case Resolved(schema) => Serves(d, id, schema)
       case Transient =>
         && ReadOutcome(d, id) == ReadOutcome(c, id)
         && forall later :: Spawns(d, id, later) <==>
              ReadOutcome(c, id).Pending? && later >= now + RetryDelay(p, id, NextAttempt(c, id))
       case Terminal(reason) =>
         && (forall later :: !Spawns(d, id, later))
         && ReadOutcome(d, id) == if id in c.schemas then ReadOutcome(c, id) else Unavailable(reason)
  }

  lemma FetchSettles(c: Inner, p: Policy, id: nat, fetched: Fetched, now: real)
    ensures Settles(c, AfterFetch(c, p, id, fetched, now), p, id, fetched, now)
  {
    hide RetryDelay, NextAttempt;
    match fetched
    case Resolved(_) =>
    case Transient =>
    case Terminal(_) =>
  }

  lemma FetchKeepsOthers(c: Inner, p: Policy, id: nat, fetched: Fetched, now: real)
    ensures OthersKept(c, AfterFetch(c, p, id, fetched, now), id)
  {
    hide RetryDelay, NextAttempt;
    match fetched
    case Resolved(_) =>
    case Transient =>
    case Terminal(_) =>
  }

  // Prewarming installs a schema and nothing else.
  function Prewarmed(c: Inner, id: nat, schema: WriterSchema): Inner { c.(schemas := c.schemas[id := schema]) }

  class SchemaCache {
    const policy: Policy
    var schemas: map<nat, WriterSchema>
    var unavailable: map<nat, string>
    var fetching: set<nat>
    var retryAfter: map<nat, real>
    var attempts: map<nat, nat>

    constructor (policy: Policy)
      ensures View() == EMPTY && this.policy == policy
    {
      this.policy := policy;
      schemas, unavailable, fetching, retryAfter, attempts := map[], map[], {}, map[], map[];
    }

    function View(): Inner
      reads this
    {
      Inner(schemas, unavailable, fetching, retryAfter, attempts)
    }

    method WriterSchemaWithReferences(id: nat, now: real) returns (outcome: Outcome, spawned: bool)
      modifies this`fetching
      ensures View() == AfterRead(old(View()), id, now) && outcome == ReadOutcome(old(View()), id)
      ensures spawned == Spawns(old(View()), id, now)
    {
      spawned := false;
      if id in schemas {
        return Served(schemas[id]), false;
      }
      if id in unavailable {
        return Unavailable(unavailable[id]), false;
      }
      if id in retryAfter && retryAfter[id] > now {
        return Pending, false;
      }
      if id !in fetching {
        fetching := fetching + {id};
        spawned := true;
      }
      outcome := Pending;
    }

    method CompleteFetch(id: nat, fetched: Fetched, now: real)
      modifies this
      ensures Settles(old(View()), View(), policy, id, fetched, now) && OthersKept(old(View()), View(), id)
      ensures View() == AfterFetch(old(View()), policy, id, fetched, now)
    {
      hide Settles, OthersKept;
      FetchSettles(View(), policy, id, fetched, now);
      FetchKeepsOthers(View(), policy, id, fetched, now);
      fetching := fetching - {id};
      match fetched {
        case Resolved(schema) =>
          schemas := schemas[id := schema];
          unavailable := unavailable - {id};
          retryAfter := retryAfter - {id};
          attempts := attempts - {id};
        case Transient =>
          var attempt := if id !in attempts then 1 else if attempts[id] >= MAX_ATTEMPTS then MAX_ATTEMPTS
                                                        else attempts[id] + 1;
          attempts := attempts[id := attempt];
          retryAfter := retryAfter[id := now + RetryDelay(policy, id, attempt)];
        case Terminal(reason) =>
          unavailable := unavailable[id := reason];
          retryAfter := retryAfter - {id};
          attempts := attempts - {id};
      }
    }

    method Seed(id: nat, schema: WriterSchema)
      modifies this
      ensures Serves(View(), id, schema) && OthersKept(old(View()), View(), id) && fetching == old(fetching)
      ensures View() == Install(old(View()), id, schema)
    {
      schemas := schemas[id := schema];
      unavailable := unavailable - {id};
      retryAfter := retryAfter - {id};
      attempts := attempts - {id};
    }

    method Prewarm(id: nat, schema: WriterSchema)
      modifies this`schemas
      ensures Serves(View(), id, schema) && OthersKept(old(View()), View(), id)
      ensures View() == Prewarmed(old(View()), id, schema)
    {
      schemas := schemas[id := schema];
    }
  }

  // ------------------------------------------------------------------
  // Every interleaving
  // ------------------------------------------------------------------

  datatype Event =
    | ReadEvent(id: nat, now: real)
    | CompleteEvent(id: nat, fetched: Fetched, now: real)
    | SeedEvent(id: nat, schema: WriterSchema)
    | PrewarmEvent(id: nat, schema: WriterSchema)

  /** The cache, the spawned fetches that have not completed, and the ids whose fetch failed for good. */
  datatype World = World(cache: Inner, outstanding: multiset<nat>, failed: set<nat>)

  ghost predicate Happens(p: Policy, w: World, e: Event, x: World) {
    match e
    case ReadEvent(id, now) =>
      x == World(AfterRead(w.cache, id, now), if Spawns(w.cache, id, now) then w.outstanding + multiset{id}
                                              else w.outstanding, w.failed)
    case CompleteEvent(id, fetched, now) =>
      && id in w.outstanding
      && x == World(AfterFetch(w.cache, p, id, fetched, now), w.outstanding - multiset{id},
              if fetched.Terminal? then w.failed + {id} else w.failed)
    case SeedEvent(id, schema) => x == w.(cache := Install(w.cache, id, schema))
    case PrewarmEvent(id, schema) => x == w.(cache := Prewarmed(w.cache, id, schema))
  }

  ghost predicate IsRun(p: Policy, run: seq<World>, events: seq<Event>) {
    && |run| == |events| + 1 && run[0] == World(EMPTY, multiset{}, {})
    && forall i :: 0 <= i < |events| ==> Happens(p, run[i], events[i], run[i + 1])
  }

  ghost predicate Settled(c: Inner, id: nat) { id !in c.fetching && (id in c.schemas || id in c.unavailable) }

  ghost predicate Ok(w: World) {
    && (forall id :: w.outstanding[id] == if id in w.cache.fetching then 1 else 0)
    && forall id <- w.failed :: Settled(w.cache, id)
  }

  lemma EventKeeps(p: Policy, w: World, e: Event, x: World)
    requires Ok(w) && Happens(p, w, e, x)
    ensures Ok(x) && w.cache.schemas.Keys <= x.cache.schemas.Keys && w.failed <= x.failed
  {
    match e
    case ReadEvent(_, _) =>
    case CompleteEvent(id, _, _) => assert id in w.cache.fetching;
    case SeedEvent(_, _) =>
    case PrewarmEvent(_, _) =>
  }

  lemma {:induction false} RunKeeps(p: Policy, run: seq<World>, events: seq<Event>, i: nat)
    requires IsRun(p, run, events) && i < |run|
    ensures Ok(run[i])
  {
    if i > 0 {
      RunKeeps(p, run, events, i - 1);
      EventKeeps(p, run[i - 1], events[i - 1], run[i]);
    }
  }

  lemma {:induction false} RunGrows(p: Policy, run: seq<World>, events: seq<Event>, i: nat, j: nat)
    requires IsRun(p, run, events) && i <= j < |run|
    ensures run[i].cache.schemas.Keys <= run[j].cache.schemas.Keys && run[i].failed <= run[j].failed
  {
    hide Happens, Ok;
    if i < j {
      assert Happens(p, run[j - 1], events[j - 1], run[j]);
      RunGrows(p, run, events, i, j - 1);
      RunKeeps(p, run, events, j - 1);
      EventKeeps(p, run[j - 1], events[j - 1], run[j]);
    }
  }

  /** An id has exactly one fetch outstanding when it is being fetched, and none otherwise. */
  lemma OneFetchEach(p: Policy, run: seq<World>, events: seq<Event>, i: nat, id: nat)
    requires IsRun(p, run, events) && i < |run|
    ensures run[i].outstanding[id] == if id in run[i].cache.fetching then 1 else 0
  {
    RunKeeps(p, run, events, i);
  }

  /** Once a read of an id is served, every later read is. */
  lemma ServedStaysServed(p: Policy, run: seq<World>, events: seq<Event>, i: nat, j: nat, id: nat)
    requires IsRun(p, run, events) && i <= j < |run| && ReadOutcome(run[i].cache, id).Served?
    ensures ReadOutcome(run[j].cache, id).Served?
  {
    RunGrows(p, run, events, i, j);
  }

  /** Once the fetch of an id has failed for good, no read fetches it again. */
  lemma TerminalNeverRefetched(p: Policy, run: seq<World>, events: seq<Event>, i: nat, j: nat, id: nat, now: real)
    requires IsRun(p, run, events) && i < j < |run|
    requires events[i].CompleteEvent? && events[i].id == id && events[i].fetched.Terminal?
    ensures !Spawns(run[j].cache, id, now) && run[j].outstanding[id] == 0
  {
    RunGrows(p, run, events, i + 1, j);
    RunKeeps(p, run, events, j);
    assert Happens(p, run[i], events[i], run[i + 1]);
    assert id in run[j].failed;
  }

  // ------------------------------------------------------------------
  // What a read answers, from the events alone
  // ------------------------------------------------------------------

  /** The schema that the event puts under the id, if it does. */
  function Installs(e: Event, id: nat): Option<WriterSchema> {
    match e
    case SeedEvent(i, schema) => if i == id then Some(schema) else None
    case PrewarmEvent(i, schema) => if i == id then Some(schema) else None
    case CompleteEvent(i, Resolved(schema), _) => if i == id then Some(schema) else None
    case _ => None
  }

  /** The last schema put under the id; without one, the failure that ended its fetch; else nothing. */
  function Answer(events: seq<Event>, id: nat): Outcome {
    if events == [] then Pending
    else
      var before, e := Answer(events[..|events| - 1], id), events[|events| - 1];
      if Installs(e, id).Some? then Served(Installs(e, id).value)
      else if e.CompleteEvent? && e.id == id && e.fetched.Terminal? && !before.Served?
      then Unavailable(e.fetched.reason)
      else before
  }

  lemma EventAnswers(p: Policy, w: World, e: Event, x: World, id: nat)
    requires Ok(w) && Happens(p, w, e, x)
    ensures ReadOutcome(x.cache, id) ==
            if Installs(e, id).Some? then Served(Installs(e, id).value)
            else if e.CompleteEvent? && e.id == id && e.fetched.Terminal? && !ReadOutcome(w.cache, id).Served?
            then Unavailable(e.fetched.reason) else ReadOutcome(w.cache, id)
  {}

  /** In every run a read answers with the last schema that a seed, a prewarm or a fetch put under the
      id, and without one with the failure that ended its fetch. */
  lemma {:induction false} ReadsAnswerTheEvents(p: Policy, run: seq<World>, events: seq<Event>, i: nat, id: nat)
    requires IsRun(p, run, events) && i < |run|
    ensures ReadOutcome(run[i].cache, id) == Answer(events[..i], id)
  {
    hide Happens, Ok, ReadOutcome, Installs;
    if i > 0 {
      ReadsAnswerTheEvents(p, run, events, i - 1, id);
      RunKeeps(p, run, events, i - 1);
      assert Happens(p, run[i - 1], events[i - 1], run[i]);
      EventAnswers(p, run[i - 1], events[i - 1], run[i], id);
      assert events[..i][..i - 1] == events[..i - 1];
    } else {
      NothingCached(id);
      assert run[0].cache == EMPTY;
    }
  }

  lemma NothingCached(id: nat)
    ensures ReadOutcome(EMPTY, id) == Pending
  {}
}

/** The MongoDB pool tracker: gauges derived from the driver's event stream (mongo/pool_metrics.go). */
module MongoPool {
  import opened Wrappers

  type ConnId = int

  /** Configured sizes; a maximum of 0 means unbounded. */
  datatype Sizes = Sizes(min: nat, max: nat)

  datatype Event =
    | PoolCreated(opts: Option<Sizes>)
    | PoolReady(opts: Option<Sizes>)
    | ConnReady(id: ConnId)
    | ConnClosed(id: ConnId)
    | CheckOutStarted
    | CheckedOut(id: ConnId)
    | CheckOutFailed(timedOut: bool)
    | CheckedIn(id: ConnId)
    | PoolCleared
    | PoolClosed

  /** What the tracker remembers of the pools at one address. */
  datatype Pool = Pool(
    ready: multiset<ConnId>, out: multiset<ConnId>, livePools: nat, pending: nat,
    emittedMin: int, emittedMax: int, created: Option<Sizes>)

  /** The sums of everything added to the address's instruments. */
  datatype Gauges = Gauges(used: int, idle: int, pending: int, min: int, max: int, timeouts: int)

  const NEW_POOL := Pool(multiset{}, multiset{}, 0, 0, 0, 0, None)
  const ZERO := Gauges(0, 0, 0, 0, 0, 0)

  /** The address's state, if the tracker has one, and its gauges. */
  datatype World = World(pool: Option<Pool>, gauges: Gauges)

  // ---- Transitions

  function SetOptions(p: Pool, g: Gauges, opts: Option<Sizes>): (Pool, Gauges) {
    var known := if opts.Some? then opts else p.created;
    if known.None? then (p, g)
    else
      var sizes := known.value;
      (p.(created := known, emittedMin := sizes.min, emittedMax := sizes.max),
       g.(min := g.min + (sizes.min - p.emittedMin), max := g.max + (sizes.max - p.emittedMax)))
  }

  /** A checkout with no idle connection behind it. */
  predicate Unbacked(p: Pool) {
    |p.ready| <= |p.out|
  }

  function CheckOut(p: Pool, g: Gauges, id: ConnId): (Pool, Gauges) {
    (p.(out := p.out + multiset{id}),
     g.(used := g.used + 1, idle := if Unbacked(p) then g.idle else g.idle - 1))
  }

  function CheckIn(p: Pool, g: Gauges, id: ConnId): (Pool, Gauges) {
    if id !in p.out then (p, g)
    else (p.(out := p.out - multiset{id}), g.(used := g.used - 1, idle := g.idle + 1))
  }

  function CloseConnection(p: Pool, g: Gauges, id: ConnId): (Pool, Gauges) {
    if id !in p.ready then (p, g)
    else if id in p.out then
      (p.(ready := p.ready - multiset{id}, out := p.out - multiset{id}), g.(used := g.used - 1))
    else (p.(ready := p.ready - multiset{id}), g.(idle := g.idle - 1))
  }

  function FinishPending(p: Pool, g: Gauges): (Pool, Gauges) {
    if p.pending == 0 then (p, g) else (p.(pending := p.pending - 1), g.(pending := g.pending - 1))
  }

  /** What closePool takes off the gauges. */
  function Unwound(p: Pool, g: Gauges): Gauges {
    g.(used := g.used - |p.out|,
       idle := if |p.ready| > |p.out| then g.idle - (|p.ready| - |p.out|) else g.idle,
       pending := g.pending - p.pending,
       min := g.min - p.emittedMin,
       max := g.max - p.emittedMax)
  }

  function HandleIn(p: Pool, g: Gauges, e: Event): (Pool, Gauges) {
    match e
    case PoolCreated(opts) => SetOptions(p.(livePools := p.livePools + 1), g, opts)
    case PoolReady(opts) => SetOptions(p, g, opts)
    case ConnReady(id) => (p.(ready := p.ready + multiset{id}), g.(idle := g.idle + 1))
    case ConnClosed(id) => CloseConnection(p, g, id)
    case CheckOutStarted => (p.(pending := p.pending + 1), g.(pending := g.pending + 1))
    case CheckedOut(id) => var (p1, g1) := FinishPending(p, g); CheckOut(p1, g1, id)
    case CheckOutFailed(timedOut) =>
      var (p1, g1) := FinishPending(p, g);
      (p1, if timedOut then g1.(timeouts := g1.timeouts + 1) else g1)
    case CheckedIn(id) => CheckIn(p, g, id)
    case PoolCleared => (p, g)
    case PoolClosed => (p.(livePools := if p.livePools > 0 then p.livePools - 1 else 0), g)
  }

  /** A pool's close, which unwinds the gauges if it was the last. */
  function CloseIn(p: Pool, g: Gauges): (Pool, Gauges) {
    var p1 := p.(livePools := if p.livePools > 0 then p.livePools - 1 else 0);
    (p1, if p1.livePools == 0 then Unwound(p1, g) else g)
  }

  function PoolOf(w: World): Pool {
    if w.pool.Some? then w.pool.value else NEW_POOL
  }

  /** One event at the address; the last pool to close takes the state with it. */
  function Handle(w: World, e: Event): World {
    var (p, g) := HandleIn(PoolOf(w), w.gauges, e);
    if e.PoolClosed? && p.livePools == 0 then World(None, Unwound(p, g)) else World(Some(p), g)
  }

  lemma HandleOfClose(w: World)
    ensures var (p, g) := CloseIn(PoolOf(w), w.gauges);
            Handle(w, PoolClosed) == World(if p.livePools == 0 then None else Some(p), g)
  {
  }

  function Run(es: seq<Event>): World {
    if es == [] then World(None, ZERO) else Handle(Run(es[..|es| - 1]), es[|es| - 1])
  }

  lemma RunOneMore(es: seq<Event>, e: Event)
    ensures Run(es + [e]) == Handle(Run(es), e)
  {
    assert (es + [e])[..|es|] == es;
  }

  // ---- Every event stream whatever

  /** The effect of one event on how far the idle gauge stands above ready less checked-out:
      an unbacked checkout raises it, a last close takes off what it found missing. */
  function DriftAfter(p: Pool, drift: int, e: Event): int {
    match e
    case CheckedOut(_) => if Unbacked(p) then drift + 1 else drift
    case PoolClosed => if p.livePools <= 1 && |p.out| > |p.ready| then drift - (|p.out| - |p.ready|) else drift
    case _ => drift
  }

  function Drift(es: seq<Event>): int {
    if es == [] then 0 else DriftAfter(PoolOf(Run(es[..|es| - 1])), Drift(es[..|es| - 1]), es[|es| - 1])
  }

  /** The gauges say what the state holds, and idle is ready less checked-out plus the drift. */
  predicate Books(p: Pool, g: Gauges, drift: int) {
    && g.used == |p.out|
    && g.pending == p.pending
    && g.min == p.emittedMin && g.max == p.emittedMax
    && g.idle == |p.ready| - |p.out| + drift
    && (p.created.Some? ==> p.emittedMin == p.created.value.min && p.emittedMax == p.created.value.max)
  }

  lemma CheckOutKeepsBooks(p: Pool, g: Gauges, drift: int, id: ConnId)
    requires Books(p, g, drift)
    ensures var (p1, g1) := FinishPending(p, g); Unbacked(p1) == Unbacked(p) && Books(p1, g1, drift)
    ensures var (p1, g1) := HandleIn(p, g, CheckedOut(id)); Books(p1, g1, if Unbacked(p) then drift + 1 else drift)
  {
    assert |p.out + multiset{id}| == |p.out| + 1;
  }

  lemma CheckInKeepsBooks(p: Pool, g: Gauges, drift: int, id: ConnId)
    requires Books(p, g, drift)
    ensures var (p1, g1) := CheckIn(p, g, id); Books(p1, g1, drift)
  {
    if id in p.out {
      assert |p.out - multiset{id}| == |p.out| - 1;
    }
  }

  lemma CloseKeepsBooks(p: Pool, g: Gauges, drift: int, id: ConnId)
    requires Books(p, g, drift)
    ensures var (p1, g1) := CloseConnection(p, g, id); Books(p1, g1, drift)
  {
    if id in p.ready {
      assert |p.ready - multiset{id}| == |p.ready| - 1;
    }
    if id in p.out {
      assert |p.out - multiset{id}| == |p.out| - 1;
    }
  }

  lemma StateKeepsBooks(p: Pool, g: Gauges, drift: int, e: Event)
    requires Books(p, g, drift)
    ensures var (p1, g1) := HandleIn(p, g, e); Books(p1, g1, if e.CheckedOut? then DriftAfter(p, drift, e) else drift)
  {
    match e
    case ConnReady(id) => assert |p.ready + multiset{id}| == |p.ready| + 1;
    case ConnClosed(id) => CloseKeepsBooks(p, g, drift, id);
    case CheckedOut(id) => CheckOutKeepsBooks(p, g, drift, id);
    case CheckedIn(id) => CheckInKeepsBooks(p, g, drift, id);
    case _ =>
  }

  lemma StepKeepsBooks(w: World, drift: int, e: Event)
    requires Books(PoolOf(w), w.gauges, drift)
    ensures Books(PoolOf(Handle(w, e)), Handle(w, e).gauges, DriftAfter(PoolOf(w), drift, e))
  {
    StateKeepsBooks(PoolOf(w), w.gauges, drift, e);
  }

  /** Whatever arrives in whatever order: used is the number of checkouts outstanding,
      pending and the configured sizes are what the state holds, and idle is exactly
      ready less checked-out plus the drift. */
  lemma {:induction false} GaugesOnAnyStream(es: seq<Event>)
    ensures Books(PoolOf(Run(es)), Run(es).gauges, Drift(es))
  {
    if es != [] {
      GaugesOnAnyStream(es[..|es| - 1]);
      StepKeepsBooks(Run(es[..|es| - 1]), Drift(es[..|es| - 1]), es[|es| - 1]);
    }
  }

  lemma LastCloseInState(w: World, drift: int)
    requires Books(PoolOf(w), w.gauges, drift) && PoolOf(w).livePools <= 1
    ensures Handle(w, PoolClosed).pool.None?
    ensures var (p, g) := (PoolOf(w), Handle(w, PoolClosed).gauges);
            && g.used == g.pending == g.min == g.max == 0
            && (g.idle == 0 <==> drift == if |p.out| > |p.ready| then |p.out| - |p.ready| else 0)
  {
  }

  /** The last close brings every gauge to zero exactly when the drift is what was missing
      at that moment; without unbacked checkouts that is when no more were checked out than ready. */
  lemma LastCloseZeroesExactly(es: seq<Event>)
    requires PoolOf(Run(es)).livePools <= 1
    ensures var (p, g) := (PoolOf(Run(es)), Run(es + [PoolClosed]).gauges);
            && g.used == g.pending == g.min == g.max == 0
            && (g.idle == 0 <==> Drift(es) == if |p.out| > |p.ready| then |p.out| - |p.ready| else 0)
  {
    GaugesOnAnyStream(es);
    LastCloseInState(Run(es), Drift(es));
    RunOneMore(es, PoolClosed);
  }

  function RunFrom(w: World, es: seq<Event>): World
    decreases |es|
  {
    if es == [] then w else RunFrom(Handle(w, es[0]), es[1..])
  }

  /** After the state is gone, all the closes and check-ins the driver still sends, for the pools
      that closed, change nothing. */
  lemma {:induction false} LateEventsAreHarmless(w: World, es: seq<Event>)
    requires PoolOf(w).ready == PoolOf(w).out == multiset{}
    requires forall e :: e in es ==> e.ConnClosed? || e.CheckedIn? || e.PoolCleared?
    ensures RunFrom(w, es).gauges == w.gauges && PoolOf(RunFrom(w, es)) == PoolOf(w)
    decreases |es|
  {
    if es != [] {
      assert es[0] in es;
      LateEventIsHarmless(w, es[0]);
      LateEventsAreHarmless(Handle(w, es[0]), es[1..]);
    }
  }

  lemma LateEventIsHarmless(w: World, e: Event)
    requires PoolOf(w).ready == PoolOf(w).out == multiset{}
    requires e.ConnClosed? || e.CheckedIn? || e.PoolCleared?
    ensures Handle(w, e).gauges == w.gauges && PoolOf(Handle(w, e)) == PoolOf(w)
  {
  }

  // ---- Where the idle gauge drifts

  /** One ready and one failed handshake under the same id, then `n` uses of the open connection. */
  function StrayStream(n: nat): seq<Event> {
    if n == 0 then [ConnReady(1)] + [ConnClosed(1)] else (StrayStream(n - 1) + [CheckedOut(1)]) + [CheckedIn(1)]
  }

  /** Nothing left in the state, and `n` on the idle gauge. */
  function Stray(n: nat): World {
    World(Some(NEW_POOL), ZERO.(idle := n))
  }

  /** A connection with the same id in another pool fails its handshake, so its close takes
      this pool's ready entry; from then on every use of the one open connection raises idle
      once more. The error is neither bounded by one nor healed when the pool drains. */
  lemma MisattributedCloseDriftsForever(n: nat)
    ensures Run(StrayStream(n)) == Stray(n)
    ensures Run(StrayStream(n) + [ConnClosed(1)]) == Stray(n)
  {
    RunOfStrayStream(n);
    CloseOfNothing(n);
    RunOneMore(StrayStream(n), ConnClosed(1));
  }

  lemma {:induction false} RunOfStrayStream(n: nat)
    ensures Run(StrayStream(n)) == Stray(n)
  {
    if n == 0 {
      RunOfStart();
    } else {
      RunOfStrayStream(n - 1);
      OneMoreCycle(StrayStream(n - 1), n - 1);
    }
  }

  lemma OneMoreCycle(es: seq<Event>, n: nat)
    requires Run(es) == Stray(n)
    ensures Run((es + [CheckedOut(1)]) + [CheckedIn(1)]) == Stray(n + 1)
  {
    RunOfCycle(es);
    CycleRaisesIdle(n);
  }

  lemma RunOfCycle(es: seq<Event>)
    ensures Run((es + [CheckedOut(1)]) + [CheckedIn(1)]) == Handle(Handle(Run(es), CheckedOut(1)), CheckedIn(1))
  {
    RunOneMore(es, CheckedOut(1));
    RunOneMore(es + [CheckedOut(1)], CheckedIn(1));
  }

  lemma RunOfStart()
    ensures Run([ConnReady(1)] + [ConnClosed(1)]) == Stray(0)
  {
    RunOneMore([], ConnReady(1));
    RunOneMore([ConnReady(1)], ConnClosed(1));
    assert [] + [ConnReady(1)] == [ConnReady(1)];
    FailedTwinTakesTheEntry();
  }

  lemma FailedTwinTakesTheEntry()
    ensures Handle(Handle(World(None, ZERO), ConnReady(1)), ConnClosed(1)) == Stray(0)
  {
    var w := Handle(World(None, ZERO), ConnReady(1));
    assert w.pool.value.ready == multiset{1};
    assert multiset{1} - multiset{1} == multiset{};
  }

  lemma CycleRaisesIdle(n: nat)
    ensures Handle(Handle(Stray(n), CheckedOut(1)), CheckedIn(1)) == Stray(n + 1)
  {
    assert Handle(Stray(n), CheckedOut(1)).pool.value.out == multiset{1};
    assert multiset{1} - multiset{1} == multiset{};
  }

  lemma CloseOfNothing(n: nat)
    ensures Handle(Stray(n), ConnClosed(1)) == Stray(n)
  {
  }

  /** Checkouts with no idle connection behind them, at any point of the run. */
  predicate EverUnbacked(es: seq<Event>) {
    es != [] && (EverUnbacked(es[..|es| - 1]) || UnbackedCheckOut(PoolOf(Run(es[..|es| - 1])), es[|es| - 1]))
  }

  predicate UnbackedCheckOut(p: Pool, e: Event) {
    e.CheckedOut? && Unbacked(p)
  }

  /** The last pool closes with more checked out than ready. */
  predicate ShortClose(p: Pool, e: Event) {
    e.PoolClosed? && p.livePools <= 1 && |p.out| > |p.ready|
  }

  predicate EverShort(es: seq<Event>) {
    es != [] && (EverShort(es[..|es| - 1]) || ShortClose(PoolOf(Run(es[..|es| - 1])), es[|es| - 1]))
  }

  /** As long as no last pool closes with more checked out than ready, idle is ready less
      checked-out exactly when no checkout was unbacked, and otherwise it is above it. */
  lemma IdleIsExactUnlessUnbacked(es: seq<Event>)
    requires !EverShort(es)
    ensures var (p, g) := (PoolOf(Run(es)), Run(es).gauges);
            && (g.idle == |p.ready| - |p.out| <==> !EverUnbacked(es))
            && g.idle >= |p.ready| - |p.out|
  {
    GaugesOnAnyStream(es);
    DriftCountsUnbacked(es);
  }

  lemma DriftAfterUnbacked(p: Pool, drift: int, e: Event)
    requires !ShortClose(p, e)
    ensures DriftAfter(p, drift, e) == if UnbackedCheckOut(p, e) then drift + 1 else drift
  {
  }

  lemma {:induction false} DriftCountsUnbacked(es: seq<Event>)
    requires !EverShort(es)
    ensures Drift(es) >= 0 && (Drift(es) == 0 <==> !EverUnbacked(es))
  {
    if es != [] {
      var before, e := es[..|es| - 1], es[|es| - 1];
      DriftCountsUnbacked(before);
      DriftAfterUnbacked(PoolOf(Run(before)), Drift(before), e);
    }
  }
}

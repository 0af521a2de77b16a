/**
 * The pool tracker as it is written: counters, per-address states and instruments updated
 * event by event (mongo/pool_metrics.go:96-121, 176-304, 336-472), proved to do what
 * `MongoPool.Handle` says at the event's address and nothing anywhere else.
 */
module MongoTracker {
  import opened Wrappers
  import opened MongoPool

  type Address = string

  // ---- Instruments

  datatype Instrument = Used | Idle | Pending | IdleMin | Max | Timeouts

  function Plus(g: Gauges, i: Instrument, delta: int): Gauges {
    match i
    case Used => g.(used := g.used + delta)
    case Idle => g.(idle := g.idle + delta)
    case Pending => g.(pending := g.pending + delta)
    case IdleMin => g.(min := g.min + delta)
    case Max => g.(max := g.max + delta)
    case Timeouts => g.(timeouts := g.timeouts + delta)
  }

  /** The up-down counters, by the address in their attributes. */
  class Metrics {
    var sums: map<Address, Gauges>

    constructor ()
      ensures sums == map[]
    {
      sums := map[];
    }

    function At(address: Address): Gauges
      reads this
    {
      if address in sums then sums[address] else ZERO
    }

    /** Every other address's sums are as they were. */
    ghost predicate Elsewhere(address: Address, before: map<Address, Gauges>)
      reads this
    {
      sums - {address} == before - {address}
    }

    lemma SameElsewhere(address: Address, before: map<Address, Gauges>, a: Address)
      requires Elsewhere(address, before) && a != address
      ensures At(a) == if a in before then before[a] else ZERO
    {
      assert a in sums - {address} <==> a in before - {address};
      if a in sums {
        assert (sums - {address})[a] == (before - {address})[a];
      }
    }

    method Add(address: Address, i: Instrument, delta: int)
      modifies this
      ensures At(address) == Plus(old(At(address)), i, delta)
      ensures Elsewhere(address, old(sums))
    {
      sums := sums[address := Plus(At(address), i, delta)];
    }

    /** Nothing is recorded for a delta of zero, which leaves the sum right all the same. */
    method AddUnlessZero(address: Address, i: Instrument, delta: int)
      modifies this
      ensures At(address) == Plus(old(At(address)), i, delta)
      ensures Elsewhere(address, old(sums))
    {
      if delta != 0 {
        Add(address, i, delta);
      }
    }
  }

  // ---- Connections counted by id

  class LiveConnections {
    var byID: map<ConnId, nat>
    var total: int
    /** What the counter holds. */
    ghost var contents: multiset<ConnId>

    ghost predicate Valid()
      reads this
    {
      && (forall id :: id in byID <==> id in contents)
      && (forall id :: id in byID ==> byID[id] == contents[id])
      && total == |contents|
    }

    constructor ()
      ensures Valid() && contents == multiset{}
    {
      byID, total, contents := map[], 0, multiset{};
    }

    method Insert(id: ConnId)
      requires Valid()
      modifies this
      ensures Valid() && contents == old(contents) + multiset{id}
    {
      byID := byID[id := (if id in byID then byID[id] else 0) + 1];
      total := total + 1;
      contents := contents + multiset{id};
    }

    method Remove(id: ConnId) returns (found: bool)
      requires Valid()
      modifies this
      ensures Valid() && found == (id in old(contents))
      ensures contents == if found then old(contents) - multiset{id} else old(contents)
    {
      var n := if id in byID then byID[id] else 0;
      if n == 0 {
        return false;
      }
      if n == 1 {
        byID := byID - {id};
      } else {
        byID := byID[id := n - 1];
      }
      total := total - 1;
      contents := contents - multiset{id};
      return true;
    }
  }

  // ---- One address

  class PoolState {
    const address: Address
    const ready: LiveConnections
    const checkedOut: LiveConnections
    var livePools: int
    var pending: int
    var emittedMin: int
    var emittedMax: int
    var seenCreated: bool
    var createdMin: nat
    var createdMax: nat

    ghost function Repr(): set<object> {
      {this, ready, checkedOut}
    }

    ghost predicate Valid()
      reads Repr()
    {
      && ready != checkedOut && ready.Valid() && checkedOut.Valid()
      && livePools >= 0 && pending >= 0
    }

    ghost function Value(): Pool
      requires Valid()
      reads Repr()
    {
      Pool(ready.contents, checkedOut.contents, livePools, pending, emittedMin, emittedMax,
           if seenCreated then Some(Sizes(createdMin, createdMax)) else None)
    }

    constructor (address: Address)
      ensures Valid() && fresh(Repr()) && Value() == NEW_POOL && this.address == address
    {
      this.address := address;
      ready := new LiveConnections();
      checkedOut := new LiveConnections();
      livePools, pending, emittedMin, emittedMax := 0, 0, 0, 0;
      seenCreated, createdMin, createdMax := false, 0, 0;
    }

    method EmitSizes(metrics: Metrics, sizes: Sizes)
      requires metrics !in Repr()
      modifies this`emittedMin, this`emittedMax, metrics
      ensures emittedMin == sizes.min && emittedMax == sizes.max
      ensures var g := old(metrics.At(address));
              metrics.At(address) == g.(min := g.min + (sizes.min - old(emittedMin)), max := g.max + (sizes.max - old(emittedMax)))
      ensures metrics.Elsewhere(address, old(metrics.sums))
    {
      metrics.AddUnlessZero(address, IdleMin, sizes.min - emittedMin);
      emittedMin := sizes.min;
      if sizes.max == 0 {
        metrics.AddUnlessZero(address, Max, -emittedMax);
        emittedMax := 0;
      } else {
        metrics.AddUnlessZero(address, Max, sizes.max - emittedMax);
        emittedMax := sizes.max;
      }
    }

    method SetOptions(metrics: Metrics, opts: Option<Sizes>)
      requires Valid() && metrics !in Repr()
      modifies this, metrics
      ensures Valid()
      ensures (Value(), metrics.At(address)) == MongoPool.SetOptions(old(Value()), old(metrics.At(address)), opts)
      ensures metrics.Elsewhere(address, old(metrics.sums))
    {
      var sizes;
      match opts {
        case None =>
          if !seenCreated {
            return;
          }
          sizes := Sizes(createdMin, createdMax);
        case Some(given) =>
          sizes := given;
          seenCreated, createdMin, createdMax := true, given.min, given.max;
      }
      EmitSizes(metrics, sizes);
    }

    method ReadyConnection(metrics: Metrics, id: ConnId)
      requires Valid() && metrics !in Repr()
      modifies ready, metrics
      ensures Valid()
      ensures (Value(), metrics.At(address)) == HandleIn(old(Value()), old(metrics.At(address)), ConnReady(id))
      ensures metrics.Elsewhere(address, old(metrics.sums))
    {
      ready.Insert(id);
      metrics.Add(address, Idle, 1);
    }

    method CheckOutConnection(metrics: Metrics, id: ConnId)
      requires Valid() && metrics !in Repr()
      modifies checkedOut, metrics
      ensures Valid()
      ensures (Value(), metrics.At(address)) == CheckOut(old(Value()), old(metrics.At(address)), id)
      ensures metrics.Elsewhere(address, old(metrics.sums))
    {
      var wasIdle := ready.total > checkedOut.total;
      checkedOut.Insert(id);
      metrics.Add(address, Used, 1);
      if wasIdle {
        metrics.Add(address, Idle, -1);
      }
    }

    method CheckInConnection(metrics: Metrics, id: ConnId)
      requires Valid() && metrics !in Repr()
      modifies checkedOut, metrics
      ensures Valid()
      ensures (Value(), metrics.At(address)) == CheckIn(old(Value()), old(metrics.At(address)), id)
      ensures metrics.Elsewhere(address, old(metrics.sums))
    {
      var found := checkedOut.Remove(id);
      if !found {
        return;
      }
      metrics.Add(address, Used, -1);
      metrics.Add(address, Idle, 1);
    }

    method CloseConnection(metrics: Metrics, id: ConnId)
      requires Valid() && metrics !in Repr()
      modifies ready, checkedOut, metrics
      ensures Valid()
      ensures (Value(), metrics.At(address)) == MongoPool.CloseConnection(old(Value()), old(metrics.At(address)), id)
      ensures metrics.Elsewhere(address, old(metrics.sums))
    {
      var found := ready.Remove(id);
      if !found {
        return;
      }
      TakeOff(metrics, id);
    }

    /** A ready connection's close, once it is out of the ready ones. */
    method TakeOff(metrics: Metrics, id: ConnId)
      requires Valid() && metrics !in Repr()
      modifies checkedOut, metrics
      ensures Valid()
      ensures var was := old(checkedOut.contents);
              && checkedOut.contents == (if id in was then was - multiset{id} else was)
              && metrics.At(address) == Plus(old(metrics.At(address)), if id in was then Used else Idle, -1)
      ensures metrics.Elsewhere(address, old(metrics.sums))
    {
      var found := checkedOut.Remove(id);
      if found {
        metrics.Add(address, Used, -1);
        return;
      }
      metrics.Add(address, Idle, -1);
    }

    method DecrementPending(metrics: Metrics)
      requires Valid() && metrics !in Repr()
      modifies this, metrics
      ensures Valid()
      ensures (Value(), metrics.At(address)) == FinishPending(old(Value()), old(metrics.At(address)))
      ensures metrics.Elsewhere(address, old(metrics.sums))
    {
      if pending == 0 {
        return;
      }
      pending := pending - 1;
      metrics.Add(address, Pending, -1);
    }

    method Created(metrics: Metrics, opts: Option<Sizes>)
      requires Valid() && metrics !in Repr()
      modifies this, metrics
      ensures Valid()
      ensures (Value(), metrics.At(address)) == HandleIn(old(Value()), old(metrics.At(address)), PoolCreated(opts))
      ensures metrics.Elsewhere(address, old(metrics.sums))
    {
      livePools := livePools + 1;
      SetOptions(metrics, opts);
    }

    method StartCheckOut(metrics: Metrics)
      requires Valid() && metrics !in Repr()
      modifies this, metrics
      ensures Valid()
      ensures (Value(), metrics.At(address)) == HandleIn(old(Value()), old(metrics.At(address)), CheckOutStarted)
      ensures metrics.Elsewhere(address, old(metrics.sums))
    {
      pending := pending + 1;
      metrics.Add(address, Pending, 1);
    }

    method FinishCheckOut(metrics: Metrics, id: ConnId)
      requires Valid() && metrics !in Repr()
      modifies this, checkedOut, metrics
      ensures Valid()
      ensures (Value(), metrics.At(address)) == HandleIn(old(Value()), old(metrics.At(address)), CheckedOut(id))
      ensures metrics.Elsewhere(address, old(metrics.sums))
    {
      DecrementPending(metrics);
      CheckOutConnection(metrics, id);
    }

    method FailCheckOut(metrics: Metrics, timedOut: bool)
      requires Valid() && metrics !in Repr()
      modifies this, metrics
      ensures Valid()
      ensures (Value(), metrics.At(address)) == HandleIn(old(Value()), old(metrics.At(address)), CheckOutFailed(timedOut))
      ensures metrics.Elsewhere(address, old(metrics.sums))
    {
      DecrementPending(metrics);
      if timedOut {
        metrics.Add(address, Timeouts, 1);
      }
    }

    method PoolClosed() returns (last: bool)
      requires Valid()
      modifies this
      ensures Valid()
      ensures Value() == HandleIn(old(Value()), ZERO, Event.PoolClosed).0 && last == (Value().livePools == 0)
    {
      if livePools > 0 {
        livePools := livePools - 1;
      }
      last := livePools == 0;
    }

    method ClosePool(metrics: Metrics)
      requires Valid() && metrics !in Repr()
      modifies metrics
      ensures metrics.At(address) == Unwound(Value(), old(metrics.At(address)))
      ensures metrics.Elsewhere(address, old(metrics.sums))
    {
      var used := checkedOut.total;
      metrics.AddUnlessZero(address, Used, -used);
      var idle := ready.total - used;
      if idle > 0 {
        metrics.Add(address, Idle, -idle);
      }
      metrics.AddUnlessZero(address, Pending, -pending);
      metrics.AddUnlessZero(address, IdleMin, -emittedMin);
      metrics.AddUnlessZero(address, Max, -emittedMax);
    }
  }

  // ---- Every address

  class PoolTracker {
    const metrics: Metrics
    var pools: map<Address, PoolState>
    var disabled: bool

    /** Every object the tracker owns. */
    ghost var Repr: set<object>

    ghost predicate Valid()
      reads this, Repr
    {
      && this in Repr && metrics in Repr
      && (forall a :: a in pools ==>
            && pools[a].Repr() <= Repr && this !in pools[a].Repr() && metrics !in pools[a].Repr()
            && pools[a].Valid() && pools[a].address == a)
      && (forall a, b :: a in pools && b in pools && a != b ==> pools[a].Repr() !! pools[b].Repr())
    }

    /** What the tracker holds and has emitted for an address. */
    ghost function WorldAt(a: Address): World
      requires Valid()
      reads Repr
    {
      World(if a in pools then Some(pools[a].Value()) else None, metrics.At(a))
    }

    constructor ()
      ensures Valid() && fresh(Repr) && !disabled
      ensures forall a :: WorldAt(a) == World(None, ZERO)
    {
      metrics := new Metrics();
      pools, disabled := map[], false;
      Repr := {this, metrics};
    }

    method Cleanup()
      requires Valid()
      modifies this`disabled
      ensures Valid() && disabled
      ensures forall a :: WorldAt(a) == old(WorldAt(a))
    {
      disabled := true;
    }

    method State(address: Address)
      requires Valid()
      modifies this`pools, this`Repr
      ensures Valid() && fresh(Repr - old(Repr)) && address in pools
      ensures forall a :: a != address ==> WorldAt(a) == old(WorldAt(a))
      ensures PoolOf(WorldAt(address)) == PoolOf(old(WorldAt(address))) && WorldAt(address).gauges == old(WorldAt(address)).gauges
    {
      if address !in pools {
        var state := new PoolState(address);
        Install(state);
      }
    }

    method Install(state: PoolState)
      requires Valid() && state.Valid() && state.address !in pools && state.Repr() !! Repr
      modifies this`pools, this`Repr
      ensures Valid() && Repr == old(Repr) + state.Repr()
      ensures WorldAt(state.address) == World(Some(state.Value()), old(WorldAt(state.address)).gauges)
      ensures forall a :: a != state.address ==> WorldAt(a) == old(WorldAt(a))
    {
      pools := pools[state.address := state];
      Repr := Repr + state.Repr();
    }

    method Dispatch(state: PoolState, e: Event)
      requires state.Valid() && metrics !in state.Repr() && this !in state.Repr()
      requires !e.PoolClosed?
      modifies state.Repr(), metrics
      ensures state.Valid()
      ensures (state.Value(), metrics.At(state.address)) == HandleIn(old(state.Value()), old(metrics.At(state.address)), e)
      ensures metrics.Elsewhere(state.address, old(metrics.sums))
    {
      match e {
        case PoolCreated(opts) => state.Created(metrics, opts);
        case PoolReady(opts) => state.SetOptions(metrics, opts);
        case ConnReady(id) => state.ReadyConnection(metrics, id);
        case ConnClosed(id) => state.CloseConnection(metrics, id);
        case CheckOutStarted => state.StartCheckOut(metrics);
        case CheckedOut(id) => state.FinishCheckOut(metrics, id);
        case CheckOutFailed(timedOut) => state.FailCheckOut(metrics, timedOut);
        case CheckedIn(id) => state.CheckInConnection(metrics, id);
        case PoolCleared =>
      }
    }

    method CloseState(state: PoolState) returns (last: bool)
      requires state.Valid() && metrics !in state.Repr() && this !in state.Repr()
      modifies state.Repr(), metrics
      ensures state.Valid() && last == (state.livePools == 0)
      ensures (state.Value(), metrics.At(state.address)) == CloseIn(old(state.Value()), old(metrics.At(state.address)))
      ensures metrics.Elsewhere(state.address, old(metrics.sums))
    {
      last := state.PoolClosed();
      if last {
        state.ClosePool(metrics);
      }
    }

    method Forget(address: Address)
      requires Valid()
      modifies this`pools
      ensures Valid() && Repr == old(Repr)
      ensures WorldAt(address) == World(None, old(WorldAt(address)).gauges)
      ensures forall a :: a != address ==> WorldAt(a) == old(WorldAt(a))
    {
      pools := pools - {address};
    }

    method ClosePoolAt(address: Address) returns (last: bool)
      requires Valid() && address in pools
      modifies Repr
      ensures Valid() && Repr == old(Repr) && disabled == old(disabled) && address in pools
      ensures last == (PoolOf(WorldAt(address)).livePools == 0)
      ensures (PoolOf(WorldAt(address)), WorldAt(address).gauges) ==
              CloseIn(PoolOf(old(WorldAt(address))), old(WorldAt(address)).gauges)
      ensures forall a :: a != address ==> WorldAt(a) == old(WorldAt(a))
    {
      ghost var before := metrics.sums;
      last := CloseState(pools[address]);
      forall a | a != address ensures WorldAt(a) == old(WorldAt(a)) {
        metrics.SameElsewhere(address, before, a);
      }
    }

    method LosePool(address: Address)
      requires Valid() && address in pools
      modifies Repr
      ensures Valid() && Repr == old(Repr) && disabled == old(disabled)
      ensures WorldAt(address) == MongoPool.Handle(old(WorldAt(address)), Event.PoolClosed)
      ensures forall a :: a != address ==> WorldAt(a) == old(WorldAt(a))
    {
      HandleOfClose(WorldAt(address));
      var last := ClosePoolAt(address);
      if last {
        Forget(address);
      }
    }

    method Update(address: Address, e: Event)
      requires Valid() && address in pools && !e.PoolClosed?
      modifies Repr
      ensures Valid() && Repr == old(Repr) && disabled == old(disabled)
      ensures WorldAt(address) == MongoPool.Handle(old(WorldAt(address)), e)
      ensures forall a :: a != address ==> WorldAt(a) == old(WorldAt(a))
    {
      ghost var before := metrics.sums;
      Dispatch(pools[address], e);
      forall a | a != address ensures WorldAt(a) == old(WorldAt(a)) {
        metrics.SameElsewhere(address, before, a);
      }
    }

    /** One event of the driver: its address moves as `MongoPool.Handle` says, no other moves,
        and a disabled tracker does nothing. */
    method Handle(address: Address, e: Event)
      requires Valid()
      modifies Repr
      ensures Valid() && fresh(Repr - old(Repr)) && disabled == old(disabled)
      ensures WorldAt(address) == if disabled then old(WorldAt(address)) else MongoPool.Handle(old(WorldAt(address)), e)
      ensures forall a :: a != address ==> WorldAt(a) == old(WorldAt(a))
    {
      if disabled {
        return;
      }
      State(address);
      if e.PoolClosed? {
        LosePool(address);
      } else {
        Update(address, e);
      }
    }
  }
}

/** The pool gauges read off the event stream alone: what was pending, timed out and configured. */
module MongoPoolEvents {
  import opened Wrappers
  import opened MongoPool

  // ---- The stream by itself

  /** How many pools are open at the address: each creation counts one, each close takes one off. */
  function PoolsOpen(es: seq<Event>): nat {
    if es == [] then 0
    else
      var n := PoolsOpen(es[..|es| - 1]);
      match es[|es| - 1]
      case PoolCreated(_) => n + 1
      case PoolClosed => if n == 0 then 0 else n - 1
      case _ => n
  }

  /** The events since the last open pool closed. */
  function SinceLastClose(es: seq<Event>): seq<Event> {
    if es == [] then []
    else if es[|es| - 1].PoolClosed? && PoolsOpen(es) == 0 then []
    else SinceLastClose(es[..|es| - 1]) + [es[|es| - 1]]
  }

  predicate Starts(e: Event) {
    e.CheckOutStarted?
  }

  predicate Finishes(e: Event) {
    e.CheckedOut? || e.CheckOutFailed?
  }

  predicate TimesOut(e: Event) {
    e == CheckOutFailed(true)
  }

  function Count(es: seq<Event>, what: Event -> bool): nat {
    if es == [] then 0 else Count(es[..|es| - 1], what) + if what(es[|es| - 1]) then 1 else 0
  }

  /** Checkouts waiting: one more for each start, one less for each finish, never below none. */
  function Waiting(es: seq<Event>): nat {
    if es == [] then 0
    else
      var n := Waiting(es[..|es| - 1]);
      if Starts(es[|es| - 1]) then n + 1
      else if Finishes(es[|es| - 1]) && n > 0 then n - 1
      else n
  }

  /** The sizes an event carries. */
  function SizesIn(e: Event): Option<Sizes> {
    match e
    case PoolCreated(opts) => opts
    case PoolReady(opts) => opts
    case _ => None
  }

  /** The sizes the last event that carries any does. */
  function LastSizes(es: seq<Event>): Option<Sizes> {
    if es == [] then None
    else if SizesIn(es[|es| - 1]).Some? then SizesIn(es[|es| - 1])
    else LastSizes(es[..|es| - 1])
  }

  /** No checkout finishes before one has started. */
  ghost predicate EveryFinishStarted(es: seq<Event>) {
    forall i :: 0 <= i <= |es| ==> Count(es[..i], Finishes) <= Count(es[..i], Starts)
  }

  // ---- What the tracker makes of it

  /** The tracker's state and gauges agree with the stream. */
  ghost predicate Agrees(w: World, open: nat, since: seq<Event>, timeouts: nat) {
    && (w.pool.Some? <==> since != [])
    && PoolOf(w).livePools == open
    && w.gauges.pending == PoolOf(w).pending == Waiting(since)
    && w.gauges.timeouts == timeouts
    && PoolOf(w).created == LastSizes(since)
    && var sizes := if LastSizes(since).Some? then LastSizes(since).value else Sizes(0, 0);
       w.gauges.min == PoolOf(w).emittedMin == sizes.min && w.gauges.max == PoolOf(w).emittedMax == sizes.max
  }

  lemma OneMoreEvent(es: seq<Event>, e: Event)
    ensures (es + [e])[..|es|] == es && (es + [e])[|es|] == e
  {
  }

  lemma SizesEventAgrees(w: World, open: nat, since: seq<Event>, timeouts: nat, e: Event)
    requires Agrees(w, open, since, timeouts) && (e.PoolCreated? || e.PoolReady?)
    ensures Agrees(Handle(w, e), if e.PoolCreated? then open + 1 else open, since + [e], timeouts)
  {
    OneMoreEvent(since, e);
  }

  lemma CheckOutEventAgrees(w: World, open: nat, since: seq<Event>, timeouts: nat, e: Event)
    requires Agrees(w, open, since, timeouts) && (Starts(e) || Finishes(e))
    ensures Agrees(Handle(w, e), open, since + [e], timeouts + if TimesOut(e) then 1 else 0)
  {
    OneMoreEvent(since, e);
  }

  lemma ConnectionEventAgrees(w: World, open: nat, since: seq<Event>, timeouts: nat, e: Event)
    requires Agrees(w, open, since, timeouts)
    requires e.ConnReady? || e.ConnClosed? || e.CheckedIn? || e.PoolCleared?
    ensures Agrees(Handle(w, e), open, since + [e], timeouts)
  {
    OneMoreEvent(since, e);
  }

  lemma CloseAgrees(w: World, open: nat, since: seq<Event>, timeouts: nat)
    requires Agrees(w, open, since, timeouts)
    ensures Agrees(Handle(w, PoolClosed), if open == 0 then 0 else open - 1,
                   if open <= 1 then [] else since + [PoolClosed], timeouts)
  {
    OneMoreEvent(since, PoolClosed);
  }

  lemma FoldsOneMore(es: seq<Event>, e: Event)
    ensures PoolsOpen(es + [e]) ==
            if e.PoolCreated? then PoolsOpen(es) + 1
            else if e.PoolClosed? && PoolsOpen(es) > 0 then PoolsOpen(es) - 1 else PoolsOpen(es)
    ensures SinceLastClose(es + [e]) == if e.PoolClosed? && PoolsOpen(es) <= 1 then [] else SinceLastClose(es) + [e]
    ensures Count(es + [e], TimesOut) == Count(es, TimesOut) + if TimesOut(e) then 1 else 0
  {
    OneMoreEvent(es, e);
  }

  ghost predicate AgreesWith(es: seq<Event>) {
    Agrees(Run(es), PoolsOpen(es), SinceLastClose(es), Count(es, TimesOut))
  }

  lemma AgreesOneMore(es: seq<Event>, e: Event)
    requires AgreesWith(es)
    ensures AgreesWith(es + [e])
  {
    RunOneMore(es, e);
    FoldsOneMore(es, e);
    if e.PoolClosed? {
      CloseAgrees(Run(es), PoolsOpen(es), SinceLastClose(es), Count(es, TimesOut));
    } else if e.PoolCreated? || e.PoolReady? {
      SizesEventAgrees(Run(es), PoolsOpen(es), SinceLastClose(es), Count(es, TimesOut), e);
    } else if Starts(e) || Finishes(e) {
      CheckOutEventAgrees(Run(es), PoolsOpen(es), SinceLastClose(es), Count(es, TimesOut), e);
    } else {
      ConnectionEventAgrees(Run(es), PoolsOpen(es), SinceLastClose(es), Count(es, TimesOut), e);
    }
  }

  lemma {:induction false} StreamAgrees(es: seq<Event>)
    ensures AgreesWith(es)
  {
    if es != [] {
      var before := es[..|es| - 1];
      StreamAgrees(before);
      AgreesOneMore(before, es[|es| - 1]);
      assert before + [es[|es| - 1]] == es;
    }
  }

  /** Whatever the stream: pending is the fold of starts and finishes since the last close,
      timeouts counts every timed-out checkout, and the sizes are the last ones reported since
      the last close, or zero. The state lives exactly while something has come since then. */
  lemma GaugesReadOffTheStream(es: seq<Event>)
    ensures var g, since := Run(es).gauges, SinceLastClose(es);
            && g.pending == Waiting(since)
            && g.timeouts == Count(es, TimesOut)
            && g.min == (if LastSizes(since).Some? then LastSizes(since).value.min else 0)
            && g.max == (if LastSizes(since).Some? then LastSizes(since).value.max else 0)
            && (Run(es).pool.None? <==> since == [])
            && PoolOf(Run(es)).livePools == PoolsOpen(es)
  {
    StreamAgrees(es);
  }

  // ---- Connections, id by id

  /** One more ready under id for each that became so, one less for each closed. */
  function ReadyAfter(n: nat, e: Event, id: ConnId): nat {
    if e == ConnReady(id) then n + 1
    else if e == ConnClosed(id) && n > 0 then n - 1
    else n
  }

  /** A close takes one off those checked out only if one was ready. */
  function OutAfter(n: nat, ready: nat, e: Event, id: ConnId): nat {
    if e == CheckedOut(id) then n + 1
    else if n > 0 && (e == CheckedIn(id) || (e == ConnClosed(id) && ready > 0)) then n - 1
    else n
  }

  function ReadyUnder(es: seq<Event>, id: ConnId): nat {
    if es == [] then 0 else ReadyAfter(ReadyUnder(es[..|es| - 1], id), es[|es| - 1], id)
  }

  function OutUnder(es: seq<Event>, id: ConnId): nat {
    if es == [] then 0
    else OutAfter(OutUnder(es[..|es| - 1], id), ReadyUnder(es[..|es| - 1], id), es[|es| - 1], id)
  }

  lemma CloseMovesCounts(p: Pool, g: Gauges, closed: ConnId, id: ConnId)
    ensures var e, p' := ConnClosed(closed), CloseConnection(p, g, closed).0;
            p'.ready[id] == ReadyAfter(p.ready[id], e, id) && p'.out[id] == OutAfter(p.out[id], p.ready[id], e, id)
  {
  }

  lemma CheckInMovesCounts(p: Pool, g: Gauges, back: ConnId, id: ConnId)
    ensures var e, p' := CheckedIn(back), CheckIn(p, g, back).0;
            p'.ready[id] == ReadyAfter(p.ready[id], e, id) && p'.out[id] == OutAfter(p.out[id], p.ready[id], e, id)
  {
  }

  lemma EventMovesCounts(p: Pool, g: Gauges, e: Event, id: ConnId)
    ensures HandleIn(p, g, e).0.ready[id] == ReadyAfter(p.ready[id], e, id)
    ensures HandleIn(p, g, e).0.out[id] == OutAfter(p.out[id], p.ready[id], e, id)
  {
    if e.ConnClosed? {
      CloseMovesCounts(p, g, e.id, id);
    } else if e.CheckedIn? {
      CheckInMovesCounts(p, g, e.id, id);
    }
  }

  lemma UnderOneMore(since: seq<Event>, e: Event, id: ConnId)
    ensures ReadyUnder(since + [e], id) == ReadyAfter(ReadyUnder(since, id), e, id)
    ensures OutUnder(since + [e], id) == OutAfter(OutUnder(since, id), ReadyUnder(since, id), e, id)
  {
    OneMoreEvent(since, e);
  }

  ghost predicate CountsUnder(es: seq<Event>, id: ConnId) {
    var p, since := PoolOf(Run(es)), SinceLastClose(es);
    p.ready[id] == ReadyUnder(since, id) && p.out[id] == OutUnder(since, id)
  }

  lemma CountsOneMore(es: seq<Event>, e: Event, id: ConnId)
    requires CountsUnder(es, id)
    ensures CountsUnder(es + [e], id)
  {
    GaugesReadOffTheStream(es);
    RunOneMore(es, e);
    FoldsOneMore(es, e);
    EventMovesCounts(PoolOf(Run(es)), Run(es).gauges, e, id);
    UnderOneMore(SinceLastClose(es), e, id);
  }

  lemma {:induction false} RunCountsUnder(es: seq<Event>, id: ConnId)
    ensures CountsUnder(es, id)
  {
    if es != [] {
      var before := es[..|es| - 1];
      RunCountsUnder(before, id);
      CountsOneMore(before, es[|es| - 1], id);
      assert before + [es[|es| - 1]] == es;
    }
  }

  /** What the state holds of each id is what the stream says since the last close. */
  lemma ConnectionsReadOffTheStream(es: seq<Event>, id: ConnId)
    ensures PoolOf(Run(es)).ready[id] == ReadyUnder(SinceLastClose(es), id)
    ensures PoolOf(Run(es)).out[id] == OutUnder(SinceLastClose(es), id)
  {
    RunCountsUnder(es, id);
  }

  // ---- Pending is starts less finishes

  lemma {:induction false} WaitingIsTheDifferenceExactly(es: seq<Event>)
    ensures Waiting(es) >= Count(es, Starts) - Count(es, Finishes)
    ensures Waiting(es) == Count(es, Starts) - Count(es, Finishes) <==> EveryFinishStarted(es)
  {
    if es == [] {
      assert EveryFinishStarted(es);
    } else {
      var before := es[..|es| - 1];
      WaitingIsTheDifferenceExactly(before);
      FinishesStartedOneMore(es);
    }
  }

  lemma FinishesStartedOneMore(es: seq<Event>)
    requires es != []
    ensures EveryFinishStarted(es) <==>
            EveryFinishStarted(es[..|es| - 1]) && Count(es, Finishes) <= Count(es, Starts)
  {
    var before := es[..|es| - 1];
    assert forall i :: 0 <= i <= |before| ==> before[..i] == es[..i];
    assert es[..|es|] == es;
    if EveryFinishStarted(es) {
      forall i | 0 <= i <= |before|
        ensures Count(before[..i], Finishes) <= Count(before[..i], Starts)
      {
        assert before[..i] == es[..i];
      }
    }
    if EveryFinishStarted(before) && Count(es, Finishes) <= Count(es, Starts) {
      forall i | 0 <= i <= |es|
        ensures Count(es[..i], Finishes) <= Count(es[..i], Starts)
      {
        if i < |es| {
          assert before[..i] == es[..i];
        }
      }
    }
  }

  /** The pending gauge is the starts less the finishes since the last close exactly when no
      checkout finished before one had started, and above it otherwise. */
  lemma PendingIsStartsLessFinishesExactly(es: seq<Event>)
    ensures var since := SinceLastClose(es);
            && Run(es).gauges.pending >= Count(since, Starts) - Count(since, Finishes)
            && (Run(es).gauges.pending == Count(since, Starts) - Count(since, Finishes) <==> EveryFinishStarted(since))
  {
    GaugesReadOffTheStream(es);
    WaitingIsTheDifferenceExactly(SinceLastClose(es));
  }
}

/**
 * The pool tracker against the connections that are really there. Several pools share one
 * address and number their connections from 1, so the tracker sees ids where reality has
 * (pool, id) pairs (mongo/pool_metrics.go:306-413).
 */
module MongoPoolTruth {
  import opened Wrappers
  import opened MongoPool

  /** A connection as it is, not as the event stream names it. */
  datatype Conn = Conn(pool: nat, id: ConnId)

  /** Connections that became ready and are not closed, those of them in use, and those the
      tracker let go of when their last pool closed and that may still be announced as closed. */
  datatype Truth = Truth(open: set<Conn>, used: set<Conn>, gone: set<Conn>)

  const NOTHING := Truth({}, {}, {})

  /** What the pools do. `Elsewhere` carries the events that concern no single connection. */
  datatype Action =
    | BecameReady(c: Conn)
    | FailedHandshake(c: Conn)
    | TakenOut(c: Conn)
    | PutBack(c: Conn)
    | Closed(c: Conn)
    | Elsewhere(e: Event)

  /** What the tracker is told. */
  function EventOf(a: Action): Event {
    match a
    case BecameReady(c) => ConnReady(c.id)
    case FailedHandshake(c) => ConnClosed(c.id)
    case TakenOut(c) => CheckedOut(c.id)
    case PutBack(c) => CheckedIn(c.id)
    case Closed(c) => ConnClosed(c.id)
    case Elsewhere(e) => e
  }

  /** No open connection has this id. */
  ghost predicate IdIsFree(t: Truth, id: ConnId) {
    forall d :: d in t.open ==> d.id != id
  }

  /** Pools check out idle connections and check in and close their own. A pool announces its close
      before those of the connections it drops, so connections that are gone may still be checked in
      and closed. A close of a connection not open, because it is gone or because its handshake
      failed, comes under an id no open connection has. */
  ghost predicate Possible(t: Truth, a: Action) {
    match a
    case BecameReady(c) => c !in t.open && c !in t.gone
    case FailedHandshake(c) => IdIsFree(t, c.id)
    case TakenOut(c) => c in t.open && c !in t.used
    case PutBack(c) => c in t.used || c in t.gone
    case Closed(c) => c in t.open || (c in t.gone && IdIsFree(t, c.id))
    case Elsewhere(e) => !e.ConnReady? && !e.ConnClosed? && !e.CheckedOut? && !e.CheckedIn?
  }

  /** When the last pool closes, all that is open goes with it. */
  function Happens(t: Truth, livePools: nat, a: Action): Truth {
    match a
    case BecameReady(c) => t.(open := t.open + {c})
    case FailedHandshake(_) => t
    case TakenOut(c) => t.(used := t.used + {c})
    case PutBack(c) => t.(used := t.used - {c})
    case Closed(c) => Truth(t.open - {c}, t.used - {c}, t.gone - {c})
    case Elsewhere(e) => if e.PoolClosed? && livePools <= 1 then Truth({}, {}, t.gone + t.open) else t
  }

  /** What is there, and what the tracker has, after a run. */
  function TruthAfter(acts: seq<Action>): Truth {
    if acts == [] then NOTHING
    else
      var before := acts[..|acts| - 1];
      Happens(TruthAfter(before), PoolOf(WorldAfter(before)).livePools, acts[|acts| - 1])
  }

  function WorldAfter(acts: seq<Action>): World {
    if acts == [] then World(None, ZERO) else Handle(WorldAfter(acts[..|acts| - 1]), EventOf(acts[|acts| - 1]))
  }

  /** Any interleaving of any number of pools, closing and created again at the address. */
  ghost predicate PossibleRun(acts: seq<Action>) {
    acts != [] ==> PossibleRun(acts[..|acts| - 1]) && Possible(TruthAfter(acts[..|acts| - 1]), acts[|acts| - 1])
  }

  lemma {:induction false} WorldAfterIsRun(acts: seq<Action>)
    ensures WorldAfter(acts) == Run(seq(|acts|, i requires 0 <= i < |acts| => EventOf(acts[i])))
  {
    var events := seq(|acts|, i requires 0 <= i < |acts| => EventOf(acts[i]));
    if acts != [] {
      var before := acts[..|acts| - 1];
      WorldAfterIsRun(before);
      assert events[..|events| - 1] == seq(|before|, i requires 0 <= i < |before| => EventOf(before[i]));
    }
  }

  // ---- Counting connections by id

  ghost function AtId(s: set<Conn>, id: ConnId): set<Conn> {
    set c | c in s && c.id == id
  }

  lemma AtIdAdd(s: set<Conn>, c: Conn, id: ConnId)
    requires c !in s
    ensures |AtId(s + {c}, id)| == |AtId(s, id)| + if c.id == id then 1 else 0
  {
    if c.id == id {
      assert AtId(s + {c}, id) == AtId(s, id) + {c};
    } else {
      assert AtId(s + {c}, id) == AtId(s, id);
    }
  }

  lemma AtIdRemove(s: set<Conn>, c: Conn, id: ConnId)
    requires c in s
    ensures |AtId(s - {c}, id)| == |AtId(s, id)| - if c.id == id then 1 else 0
  {
    AtIdAdd(s - {c}, c, id);
    assert s - {c} + {c} == s;
  }

  lemma AtIdNonempty(s: set<Conn>, c: Conn)
    requires c in s
    ensures |AtId(s, c.id)| > 0
  {
    assert c in AtId(s, c.id);
  }

  /** The counter holds at most the connections' ids, or exactly them. */
  ghost predicate AtMost(m: multiset<ConnId>, s: set<Conn>) {
    forall id :: m[id] <= |AtId(s, id)|
  }

  ghost predicate Exactly(m: multiset<ConnId>, s: set<Conn>) {
    forall id :: m[id] == |AtId(s, id)|
  }

  lemma {:induction false} TotalOfAtMost(m: multiset<ConnId>, s: set<Conn>)
    requires AtMost(m, s)
    ensures |m| <= |s|
    decreases |s|
  {
    if s == {} {
      forall id ensures m[id] == 0 {
        assert AtId(s, id) == {};
      }
      assert m == multiset{};
    } else {
      var c :| c in s;
      var less := m - multiset{c.id};
      forall id ensures less[id] <= |AtId(s - {c}, id)| {
        AtIdRemove(s, c, id);
      }
      TotalOfAtMost(less, s - {c});
      assert |less| >= |m| - 1;
    }
  }

  lemma {:induction false} TotalOfExactly(m: multiset<ConnId>, s: set<Conn>)
    requires Exactly(m, s)
    ensures |m| == |s|
    decreases |s|
  {
    if s == {} {
      TotalOfAtMost(m, s);
    } else {
      var c :| c in s;
      AtIdNonempty(s, c);
      assert c.id in m;
      var less := m - multiset{c.id};
      forall id ensures less[id] == |AtId(s - {c}, id)| {
        AtIdRemove(s, c, id);
      }
      TotalOfExactly(less, s - {c});
    }
  }

  // ---- The invariant

  ghost predicate Tracks(t: Truth, w: World) {
    && t.used <= t.open && t.open !! t.gone
    && Exactly(PoolOf(w).ready, t.open)
    && AtMost(PoolOf(w).out, t.used)
    && Books(PoolOf(w), w.gauges, 0)
  }

  lemma SubsetCounts(s: set<Conn>, t: set<Conn>)
    requires s <= t
    ensures |s| <= |t|
  {
    assert t == s + (t - s);
  }

  /** Used and idle together are the true open count, used never overstates and idle never
      understates; nothing open leaves both at zero. */
  lemma TrackedGauges(t: Truth, w: World)
    requires Tracks(t, w)
    ensures w.gauges.used + w.gauges.idle == |t.open|
    ensures 0 <= w.gauges.used <= |t.used|
    ensures w.gauges.idle >= |t.open| - |t.used| >= 0
    ensures t.open == {} ==> w.gauges.used == w.gauges.idle == 0
  {
    TotalOfExactly(PoolOf(w).ready, t.open);
    TotalOfAtMost(PoolOf(w).out, t.used);
    SubsetCounts(t.used, t.open);
  }

  lemma ReadyStep(t: Truth, w: World, c: Conn)
    requires Tracks(t, w) && c !in t.open && c !in t.gone
    ensures Tracks(t.(open := t.open + {c}), Handle(w, ConnReady(c.id)))
  {
    StepKeepsBooks(w, 0, ConnReady(c.id));
    var ready := PoolOf(w).ready + multiset{c.id};
    forall id ensures ready[id] == |AtId(t.open + {c}, id)| {
      AtIdAdd(t.open, c, id);
    }
  }

  /** A close under an id no open connection has is not taken for any of them. */
  lemma StrayCloseStep(t: Truth, w: World, c: Conn)
    requires Tracks(t, w) && IdIsFree(t, c.id)
    ensures PoolOf(Handle(w, ConnClosed(c.id))) == PoolOf(w) && Handle(w, ConnClosed(c.id)).gauges == w.gauges
  {
    assert AtId(t.open, c.id) == {};
    assert PoolOf(w).ready[c.id] == 0;
  }

  /** An idle connection is checked out: the tracker always has an idle one to take. */
  lemma TakenOutIsBacked(t: Truth, w: World, c: Conn)
    requires Tracks(t, w) && c in t.open && c !in t.used
    ensures !Unbacked(PoolOf(w))
  {
    TotalOfExactly(PoolOf(w).ready, t.open);
    TotalOfAtMost(PoolOf(w).out, t.used);
    SubsetCounts(t.used + {c}, t.open);
  }

  lemma TakenOutStep(t: Truth, w: World, c: Conn)
    requires Tracks(t, w) && c in t.open && c !in t.used
    ensures Tracks(t.(used := t.used + {c}), Handle(w, CheckedOut(c.id)))
  {
    TakenOutIsBacked(t, w, c);
    StepKeepsBooks(w, 0, CheckedOut(c.id));
    var out := PoolOf(w).out + multiset{c.id};
    forall id ensures out[id] <= |AtId(t.used + {c}, id)| {
      AtIdAdd(t.used, c, id);
    }
  }

  /** Taking an id off the checked-out counter when there is one keeps it below the truth,
      whichever pool's connection left use. */
  lemma LessOut(out: multiset<ConnId>, used: set<Conn>, c: Conn)
    requires AtMost(out, used)
    ensures AtMost(out - multiset{c.id}, used - {c})
  {
    forall id ensures (out - multiset{c.id})[id] <= |AtId(used - {c}, id)| {
      if c in used {
        AtIdRemove(used, c, id);
      } else {
        assert used - {c} == used;
      }
    }
  }

  lemma PutBackStep(t: Truth, w: World, c: Conn)
    requires Tracks(t, w)
    ensures Tracks(t.(used := t.used - {c}), Handle(w, CheckedIn(c.id)))
  {
    StepKeepsBooks(w, 0, CheckedIn(c.id));
    LessOut(PoolOf(w).out, t.used, c);
    if c.id !in PoolOf(w).out {
      assert PoolOf(w).out - multiset{c.id} == PoolOf(w).out;
    }
  }

  lemma ClosedStep(t: Truth, w: World, c: Conn)
    requires Tracks(t, w) && c in t.open
    ensures Tracks(Truth(t.open - {c}, t.used - {c}, t.gone - {c}), Handle(w, ConnClosed(c.id)))
  {
    StepKeepsBooks(w, 0, ConnClosed(c.id));
    AtIdNonempty(t.open, c);
    assert c.id in PoolOf(w).ready;
    var ready := PoolOf(w).ready - multiset{c.id};
    forall id ensures ready[id] == |AtId(t.open - {c}, id)| {
      AtIdRemove(t.open, c, id);
    }
    LessOut(PoolOf(w).out, t.used, c);
    if c.id !in PoolOf(w).out {
      assert PoolOf(w).out - multiset{c.id} == PoolOf(w).out;
    }
  }

  lemma LateCloseStep(t: Truth, w: World, c: Conn)
    requires Tracks(t, w) && c in t.gone && IdIsFree(t, c.id)
    ensures Tracks(Truth(t.open - {c}, t.used - {c}, t.gone - {c}), Handle(w, ConnClosed(c.id)))
  {
    StrayCloseStep(t, w, c);
    assert t.open - {c} == t.open && t.used - {c} == t.used;
  }

  /** Never more checked out than ready. */
  lemma OutWithinReady(t: Truth, w: World)
    requires Tracks(t, w)
    ensures |PoolOf(w).ready| == |t.open| && |PoolOf(w).out| <= |PoolOf(w).ready|
  {
    TotalOfExactly(PoolOf(w).ready, t.open);
    TotalOfAtMost(PoolOf(w).out, t.used);
    SubsetCounts(t.used, t.open);
  }

  lemma NoneCounted()
    ensures Exactly(multiset{}, {}) && AtMost(multiset{}, {})
  {
    forall id ensures |AtId({}, id)| == 0 {
      assert AtId({}, id) == {};
    }
  }

  /** The last close leaves an address with nothing open and every gauge at zero. */
  lemma LastCloseStep(t: Truth, w: World)
    requires Tracks(t, w) && PoolOf(w).livePools <= 1
    ensures Tracks(Truth({}, {}, t.gone + t.open), Handle(w, PoolClosed))
    ensures var g := Handle(w, PoolClosed).gauges; g.used == g.idle == g.pending == g.min == g.max == 0
  {
    OutWithinReady(t, w);
    LastCloseInState(w, 0);
    NoneCounted();
  }

  lemma ElsewhereStep(t: Truth, w: World, e: Event)
    requires Tracks(t, w) && Possible(t, Elsewhere(e))
    ensures Tracks(Happens(t, PoolOf(w).livePools, Elsewhere(e)), Handle(w, e))
  {
    if e.PoolClosed? && PoolOf(w).livePools <= 1 {
      LastCloseStep(t, w);
    } else {
      StepKeepsBooks(w, 0, e);
    }
  }

  lemma StepTracks(t: Truth, w: World, a: Action)
    requires Tracks(t, w) && Possible(t, a)
    ensures Tracks(Happens(t, PoolOf(w).livePools, a), Handle(w, EventOf(a)))
  {
    match a
    case BecameReady(c) => ReadyStep(t, w, c);
    case FailedHandshake(c) => StrayCloseStep(t, w, c);
    case TakenOut(c) => TakenOutStep(t, w, c);
    case PutBack(c) => PutBackStep(t, w, c);
    case Closed(c) => if c in t.open { ClosedStep(t, w, c); } else { LateCloseStep(t, w, c); }
    case Elsewhere(e) => ElsewhereStep(t, w, e);
  }

  lemma {:induction false} RunTracks(acts: seq<Action>)
    requires PossibleRun(acts)
    ensures Tracks(TruthAfter(acts), WorldAfter(acts))
  {
    if acts == [] {
      NoneCounted();
    } else {
      RunTracks(acts[..|acts| - 1]);
      StepTracks(TruthAfter(acts[..|acts| - 1]), WorldAfter(acts[..|acts| - 1]), acts[|acts| - 1]);
    }
  }

  /** Any interleaving of any number of pools with colliding ids, closing over open connections and
      coming back: the two gauges always add up to the connections that are open, used stays within
      those in use, and all is zero once nothing is open. */
  lemma GaugesAddUpToTheOpenConnections(acts: seq<Action>)
    requires PossibleRun(acts)
    ensures var (t, g) := (TruthAfter(acts), WorldAfter(acts).gauges);
            && g.used + g.idle == |t.open|
            && 0 <= g.used <= |t.used|
            && g.idle >= |t.open| - |t.used| >= 0
            && (t.open == {} ==> g.used == g.idle == 0)
  {
    RunTracks(acts);
    TrackedGauges(TruthAfter(acts), WorldAfter(acts));
  }

  /** Whenever the last pool closes, every gauge of the address is taken back to zero, even with
      connections still open. */
  lemma LastPoolTakesEverythingWithIt(acts: seq<Action>)
    requires PossibleRun(acts) && PoolOf(WorldAfter(acts)).livePools <= 1
    ensures var w := Handle(WorldAfter(acts), PoolClosed);
            && w.pool == None
            && w.gauges.used == w.gauges.idle == w.gauges.pending == w.gauges.min == w.gauges.max == 0
  {
    RunTracks(acts);
    LastCloseStep(TruthAfter(acts), WorldAfter(acts));
  }

  // ---- Closes of connections that are not open

  /** After any run, the close of a connection that is not open, because its handshake failed or
      because it is gone, is booked right exactly when no open connection of any pool has the same
      id; otherwise the gauges lose a connection that is still open. Ids restart at 1 in a pool
      created anew, so a late close can meet the new pool's first connections. */
  lemma StrayCloseIsHarmlessExactly(acts: seq<Action>, c: Conn)
    requires PossibleRun(acts) && c !in TruthAfter(acts).open
    ensures var (t, g) := (TruthAfter(acts), Handle(WorldAfter(acts), ConnClosed(c.id)).gauges);
            && (g.used + g.idle == |t.open| <==> IdIsFree(t, c.id))
            && (!IdIsFree(t, c.id) ==> g.used + g.idle == |t.open| - 1)
  {
    RunTracks(acts);
    StrayCloseInState(TruthAfter(acts), WorldAfter(acts), c);
  }

  lemma StrayCloseInState(t: Truth, w: World, c: Conn)
    requires Tracks(t, w)
    ensures var g := Handle(w, ConnClosed(c.id)).gauges;
            g.used + g.idle == if IdIsFree(t, c.id) then |t.open| else |t.open| - 1
  {
    OutWithinReady(t, w);
    if d :| d in t.open && d.id == c.id {
      AtIdNonempty(t.open, d);
      assert c.id in PoolOf(w).ready;
      StepKeepsBooks(w, 0, ConnClosed(c.id));
    } else {
      StrayCloseStep(t, w, c);
    }
  }

  // ---- No id in two hands

  /** No two open connections come under one id, and no gone one is checked in under an id in use. */
  ghost predicate Unambiguous(t: Truth, a: Action) {
    match a
    case BecameReady(c) => IdIsFree(t, c.id)
    case PutBack(c) => c in t.used || forall d :: d in t.used ==> d.id != c.id
    case _ => true
  }

  ghost predicate UnambiguousRun(acts: seq<Action>) {
    acts != [] ==> UnambiguousRun(acts[..|acts| - 1]) && Unambiguous(TruthAfter(acts[..|acts| - 1]), acts[|acts| - 1])
  }

  ghost predicate IdsAreUnique(s: set<Conn>) {
    forall c, d :: c in s && d in s && c.id == d.id ==> c == d
  }

  /** An id names one open connection, and the checked-out counter is exact. */
  ghost predicate TracksExactly(t: Truth, w: World) {
    Tracks(t, w) && IdsAreUnique(t.open) && Exactly(PoolOf(w).out, t.used)
  }

  lemma IdIsInUse(t: Truth, w: World, c: Conn)
    requires TracksExactly(t, w) && (c in t.open || forall d :: d in t.used ==> d.id != c.id)
    ensures c.id in PoolOf(w).out <==> c in t.used
  {
    if c.id in PoolOf(w).out {
      var d :| d in AtId(t.used, c.id);
      assert d == c;
    } else {
      assert c !in AtId(t.used, c.id);
    }
  }

  lemma ExactlyLess(out: multiset<ConnId>, used: set<Conn>, c: Conn)
    requires Exactly(out, used) && (c.id in out <==> c in used)
    ensures Exactly(out - multiset{c.id}, used - {c})
  {
    forall id ensures (out - multiset{c.id})[id] == |AtId(used - {c}, id)| {
      if c in used {
        AtIdRemove(used, c, id);
      } else {
        assert used - {c} == used;
      }
    }
  }

  lemma TakenOutExactly(t: Truth, w: World, c: Conn)
    requires TracksExactly(t, w) && c in t.open && c !in t.used
    ensures Exactly(PoolOf(Handle(w, CheckedOut(c.id))).out, t.used + {c})
  {
    var out := PoolOf(w).out + multiset{c.id};
    forall id ensures out[id] == |AtId(t.used + {c}, id)| {
      AtIdAdd(t.used, c, id);
    }
  }

  lemma PutBackExactly(t: Truth, w: World, c: Conn)
    requires TracksExactly(t, w) && (c in t.used || forall d :: d in t.used ==> d.id != c.id)
    ensures Exactly(PoolOf(Handle(w, CheckedIn(c.id))).out, t.used - {c})
  {
    IdIsInUse(t, w, c);
    ExactlyLess(PoolOf(w).out, t.used, c);
    if c.id !in PoolOf(w).out {
      assert PoolOf(w).out - multiset{c.id} == PoolOf(w).out;
    }
  }

  lemma ClosedExactly(t: Truth, w: World, c: Conn)
    requires TracksExactly(t, w) && c in t.open
    ensures Exactly(PoolOf(Handle(w, ConnClosed(c.id))).out, t.used - {c})
  {
    IdIsInUse(t, w, c);
    ExactlyLess(PoolOf(w).out, t.used, c);
    AtIdNonempty(t.open, c);
    assert c.id in PoolOf(w).ready;
    if c.id !in PoolOf(w).out {
      assert PoolOf(w).out - multiset{c.id} == PoolOf(w).out;
    }
  }

  lemma StepKeepsIdsUnique(t: Truth, livePools: nat, a: Action)
    requires IdsAreUnique(t.open) && Unambiguous(t, a)
    ensures IdsAreUnique(Happens(t, livePools, a).open)
  {
  }

  lemma OtherStepsExactly(t: Truth, w: World, a: Action)
    requires TracksExactly(t, w) && Possible(t, a) && (a.BecameReady? || a.FailedHandshake? || a.Elsewhere?)
    ensures Exactly(PoolOf(Handle(w, EventOf(a))).out, Happens(t, PoolOf(w).livePools, a).used)
  {
    if a.FailedHandshake? {
      StrayCloseStep(t, w, a.c);
    }
    NoneCounted();
  }

  lemma ConnectionStepsExactly(t: Truth, w: World, a: Action)
    requires TracksExactly(t, w) && Possible(t, a) && Unambiguous(t, a) && (a.TakenOut? || a.PutBack? || a.Closed?)
    ensures Exactly(PoolOf(Handle(w, EventOf(a))).out, Happens(t, PoolOf(w).livePools, a).used)
  {
    if a.TakenOut? {
      TakenOutExactly(t, w, a.c);
    } else if a.PutBack? {
      PutBackExactly(t, w, a.c);
    } else if a.c in t.open {
      ClosedExactly(t, w, a.c);
    } else {
      StrayCloseStep(t, w, a.c);
      assert t.used - {a.c} == t.used;
    }
  }

  lemma StepTracksExactly(t: Truth, w: World, a: Action)
    requires TracksExactly(t, w) && Possible(t, a) && Unambiguous(t, a)
    ensures TracksExactly(Happens(t, PoolOf(w).livePools, a), Handle(w, EventOf(a)))
  {
    StepTracks(t, w, a);
    StepKeepsIdsUnique(t, PoolOf(w).livePools, a);
    if a.TakenOut? || a.PutBack? || a.Closed? {
      ConnectionStepsExactly(t, w, a);
    } else {
      OtherStepsExactly(t, w, a);
    }
  }

  lemma {:induction false} RunTracksExactly(acts: seq<Action>)
    requires PossibleRun(acts) && UnambiguousRun(acts)
    ensures TracksExactly(TruthAfter(acts), WorldAfter(acts))
  {
    if acts == [] {
      NoneCounted();
    } else {
      RunTracksExactly(acts[..|acts| - 1]);
      StepTracksExactly(TruthAfter(acts[..|acts| - 1]), WorldAfter(acts[..|acts| - 1]), acts[|acts| - 1]);
    }
  }

  /** While no id is in two hands at once, both gauges are the true counts, failed handshakes,
      pool closes and pools created again included. */
  lemma UnambiguousIdsAreExact(acts: seq<Action>)
    requires PossibleRun(acts) && UnambiguousRun(acts)
    ensures var (t, g) := (TruthAfter(acts), WorldAfter(acts).gauges);
            g.used == |t.used| && g.idle == |t.open - t.used|
  {
    RunTracksExactly(acts);
    var (t, w) := (TruthAfter(acts), WorldAfter(acts));
    OutWithinReady(t, w);
    TotalOfExactly(PoolOf(w).out, t.used);
    assert t.open == (t.open - t.used) + t.used;
  }

  ghost predicate InOnePool(acts: seq<Action>, pool: nat) {
    forall a :: a in acts && !a.Elsewhere? ==> a.c.pool == pool
  }

  lemma {:induction false} OnePoolIsUnambiguous(acts: seq<Action>, pool: nat)
    requires PossibleRun(acts) && InOnePool(acts, pool)
    ensures UnambiguousRun(acts)
    ensures forall c :: c in TruthAfter(acts).open + TruthAfter(acts).gone ==> c.pool == pool
  {
    if acts != [] {
      var before, a := acts[..|acts| - 1], acts[|acts| - 1];
      OnePoolIsUnambiguous(before, pool);
      RunTracks(before);
      assert a in acts;
      UnambiguousInOnePool(TruthAfter(before), PoolOf(WorldAfter(before)).livePools, a, pool);
    }
  }

  lemma UnambiguousInOnePool(t: Truth, livePools: nat, a: Action, pool: nat)
    requires t.used <= t.open && t.open !! t.gone && Possible(t, a)
    requires !a.Elsewhere? ==> a.c.pool == pool
    requires forall c :: c in t.open + t.gone ==> c.pool == pool
    ensures Unambiguous(t, a)
    ensures var t' := Happens(t, livePools, a); forall c :: c in t'.open + t'.gone ==> c.pool == pool
  {
    if a.PutBack? && a.c in t.gone {
      forall d | d in t.used ensures d.id != a.c.id {
        assert d in t.open;
      }
    }
  }

  /** One pool, which never uses an id twice: used and idle are the true counts after every event,
      failed handshakes and late closes included. */
  lemma OnePoolIsExact(acts: seq<Action>, pool: nat)
    requires PossibleRun(acts) && InOnePool(acts, pool)
    ensures var (t, g) := (TruthAfter(acts), WorldAfter(acts).gauges);
            g.used == |t.used| && g.idle == |t.open - t.used|
  {
    OnePoolIsUnambiguous(acts, pool);
    UnambiguousIdsAreExact(acts);
  }
}

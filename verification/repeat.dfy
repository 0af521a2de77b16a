/**
 * The bounded suppressor of repeated messages (internal/repeat/repeat.go): its table as it
 * is updated in place, and what any run of it guarantees.
 */
module Repeat {
  type Time = int
  type Table = map<string, Time>

  // ---- One call

  /** The entries still inside the window. */
  function Purged(t: Table, window: int, now: Time): Table {
    map m | m in t && now - t[m] < window :: t[m]
  }

  predicate IsOldest(t: Table, m: string) {
    m in t && forall k :: k in t ==> t[m] <= t[k]
  }

  /** Room for one more: a full table loses an oldest entry, whichever of several. */
  ghost predicate MakesRoom(t: Table, max: nat, r: Table) {
    if |t| < max then r == t else exists m :: IsOldest(t, m) && r == t - {m}
  }

  datatype Call = Call(msg: string, now: Time, suppressed: bool)

  predicate SeenInWindow(t: Table, window: int, msg: string, now: Time) {
    msg in t && now - t[msg] < window
  }

  /** One call of SuppressedAt, from table to table. */
  ghost predicate Step(window: int, max: nat, t: Table, c: Call, t': Table) {
    if SeenInWindow(t, window, c.msg, c.now) then c.suppressed && t' == t
    else !c.suppressed && exists room :: MakesRoom(Purged(t, window, c.now), max, room) && t' == room[c.msg := c.now]
  }

  class Suppressor {
    const window: int
    const maxEntries: nat
    var lastSeen: Table

    constructor (window: int, maxEntries: int)
      ensures this.window == window && lastSeen == map[]
      ensures this.maxEntries == if maxEntries < 1 then 1 else maxEntries
    {
      this.window := window;
      this.maxEntries := if maxEntries < 1 then 1 else maxEntries;
      lastSeen := map[];
    }

    method SuppressedAt(msg: string, now: Time) returns (suppressed: bool)
      requires maxEntries >= 1
      modifies this
      ensures Step(window, maxEntries, old(lastSeen), Call(msg, now, suppressed), lastSeen)
    {
      if msg in lastSeen && now - lastSeen[msg] < window {
        return true;
      }
      Purge(now);
      if |lastSeen| >= maxEntries {
        EvictOldest();
      }
      assert MakesRoom(Purged(old(lastSeen), window, now), maxEntries, lastSeen);
      lastSeen := lastSeen[msg := now];
      return false;
    }

    method Purge(now: Time)
      modifies this
      ensures lastSeen == Purged(old(lastSeen), window, now)
    {
      var todo := lastSeen.Keys;
      while todo != {}
        invariant todo <= lastSeen.Keys
        invariant forall m :: m in lastSeen ==> m in old(lastSeen) && lastSeen[m] == old(lastSeen)[m]
        invariant forall m :: m in lastSeen && m !in todo ==> now - lastSeen[m] < window
        invariant forall m :: m in old(lastSeen) && now - old(lastSeen)[m] < window ==> m in lastSeen
        decreases |todo|
      {
        var m :| m in todo;
        todo := todo - {m};
        if now - lastSeen[m] >= window {
          lastSeen := lastSeen - {m};
        }
      }
    }

    method EvictOldest()
      requires |lastSeen| >= 1
      modifies this
      ensures exists m :: IsOldest(old(lastSeen), m) && lastSeen == old(lastSeen) - {m}
    {
      var todo := lastSeen.Keys;
      var oldestMsg, oldest, first := "", 0, true;
      while todo != {}
        invariant todo <= lastSeen.Keys
        invariant first <==> todo == lastSeen.Keys
        invariant !first ==> oldestMsg in lastSeen && oldest == lastSeen[oldestMsg]
        invariant forall k :: k in lastSeen && k !in todo ==> oldest <= lastSeen[k]
        decreases |todo|
      {
        var m :| m in todo;
        todo := todo - {m};
        if first || lastSeen[m] < oldest {
          oldestMsg, oldest, first := m, lastSeen[m], false;
        }
      }
      assert lastSeen.Keys != {};
      assert IsOldest(lastSeen, oldestMsg);
      lastSeen := lastSeen - {oldestMsg};
    }
  }

  // ---- Runs

  /** Calls made one after the other, with the table before, between and after them. */
  ghost predicate IsRun(window: int, max: nat, calls: seq<Call>, tables: seq<Table>) {
    && |tables| == |calls| + 1
    && tables[0] == map[]
    && forall i :: 0 <= i < |calls| ==> StepAt(window, max, calls, tables, i)
  }

  ghost predicate StepAt(window: int, max: nat, calls: seq<Call>, tables: seq<Table>, i: nat)
    requires i < |calls| && |tables| == |calls| + 1
  {
    Step(window, max, tables[i], calls[i], tables[i + 1])
  }

  ghost predicate ClockRises(calls: seq<Call>) {
    forall i, j :: 0 <= i <= j < |calls| ==> calls[i].now <= calls[j].now
  }

  /** The call that last let the message through, or -1. */
  function LastPass(calls: seq<Call>, msg: string): (r: int)
    ensures -1 <= r < |calls|
    ensures r >= 0 ==> calls[r].msg == msg && !calls[r].suppressed
  {
    if calls == [] then -1
    else
      var last := |calls| - 1;
      if calls[last].msg == msg && !calls[last].suppressed then last else LastPass(calls[..last], msg)
  }

  lemma {:induction false} LastPassIsTheLast(calls: seq<Call>, msg: string, i: nat)
    requires LastPass(calls, msg) < i < |calls|
    ensures calls[i].msg != msg || calls[i].suppressed
  {
    if i < |calls| - 1 {
      LastPassIsTheLast(calls[..|calls| - 1], msg, i);
    }
  }

  /** The other messages let through at `since` or later. */
  ghost function Others(calls: seq<Call>, msg: string, since: Time): set<string> {
    set i | 0 <= i < |calls| && !calls[i].suppressed && calls[i].msg != msg && calls[i].now >= since :: calls[i].msg
  }

  /** The table is part of the history. */
  ghost predicate Remembers(calls: seq<Call>, t: Table) {
    forall m :: m in t ==> LastPass(calls, m) >= 0 && calls[LastPass(calls, m)].now == t[m]
  }

  lemma LastPassOneMore(calls: seq<Call>, c: Call, m: string)
    ensures LastPass(calls + [c], m) == if c.msg == m && !c.suppressed then |calls| else LastPass(calls, m)
  {
    assert (calls + [c])[..|calls|] == calls;
  }

  lemma StepRemembers(window: int, max: nat, calls: seq<Call>, t: Table, c: Call, t': Table)
    requires Remembers(calls, t) && Step(window, max, t, c, t')
    ensures Remembers(calls + [c], t')
  {
    forall m | m in t'
      ensures LastPass(calls + [c], m) >= 0 && (calls + [c])[LastPass(calls + [c], m)].now == t'[m]
    {
      LastPassOneMore(calls, c, m);
    }
  }

  lemma StepFits(window: int, max: nat, t: Table, c: Call, t': Table)
    requires max >= 1 && |t| <= max && Step(window, max, t, c, t')
    ensures |t'| <= max
  {
    if !c.suppressed {
      var p := Purged(t, window, c.now);
      var room :| MakesRoom(p, max, room) && t' == room[c.msg := c.now];
      assert p.Keys <= t.Keys;
      SubsetCounts(p.Keys, t.Keys);
      CardinalityOfKeys(p);
      CardinalityOfKeys(t);
      CardinalityOfKeys(room);
      CardinalityOfKeys(t');
      if |p| >= max {
        var m :| IsOldest(p, m) && room == p - {m};
        assert room.Keys == p.Keys - {m};
      }
      assert t'.Keys == room.Keys + {c.msg};
    }
  }

  lemma CardinalityOfKeys(t: Table)
    ensures |t| == |t.Keys|
  {
  }

  lemma SubsetCounts<T>(s: set<T>, t: set<T>)
    requires s <= t
    ensures |s| <= |t|
  {
    assert t == s + (t - s);
  }

  lemma RunStepFits(window: int, max: nat, calls: seq<Call>, tables: seq<Table>, i: nat)
    requires max >= 1 && IsRun(window, max, calls, tables) && i < |calls| && |tables[i]| <= max
    ensures |tables[i + 1]| <= max
  {
    assert StepAt(window, max, calls, tables, i);
    StepFits(window, max, tables[i], calls[i], tables[i + 1]);
  }

  lemma {:induction false} RunFits(window: int, max: nat, calls: seq<Call>, tables: seq<Table>, n: nat)
    requires max >= 1 && IsRun(window, max, calls, tables) && n <= |calls|
    ensures |tables[n]| <= max
  {
    if n > 0 {
      RunFits(window, max, calls, tables, n - 1);
      RunStepFits(window, max, calls, tables, n - 1);
    }
  }

  lemma {:induction false} RunRemembers(window: int, max: nat, calls: seq<Call>, tables: seq<Table>, n: nat)
    requires IsRun(window, max, calls, tables) && n <= |calls|
    ensures Remembers(calls[..n], tables[n])
  {
    if n > 0 {
      var before, c := calls[..n - 1], calls[n - 1];
      RunRemembers(window, max, calls, tables, n - 1);
      assert StepAt(window, max, calls, tables, n - 1);
      assert calls[..n] == before + [c];
      StepRemembers(window, max, before, tables[n - 1], c, tables[n]);
    }
  }

  /** The table never exceeds its bound. */
  lemma TableIsBounded(window: int, max: nat, calls: seq<Call>, tables: seq<Table>)
    requires max >= 1 && IsRun(window, max, calls, tables)
    ensures forall n :: 0 <= n < |tables| ==> |tables[n]| <= max
  {
    forall n | 0 <= n < |tables| ensures |tables[n]| <= max {
      RunFits(window, max, calls, tables, n);
    }
  }

  /** A suppressed message was let through less than one window earlier. */
  lemma SuppressedWasLetThrough(window: int, max: nat, calls: seq<Call>, tables: seq<Table>, i: nat)
    requires max >= 1 && IsRun(window, max, calls, tables) && i < |calls| && calls[i].suppressed
    ensures var j := LastPass(calls[..i], calls[i].msg);
            j >= 0 && calls[i].now - calls[j].now < window
  {
    RunRemembers(window, max, calls, tables, i);
    assert StepAt(window, max, calls, tables, i);
  }

  // ---- What it takes to escape inside the window

  /** The message is still in the table, out of its window by `now`, or has been pushed out by
      at least `max` others. */
  ghost predicate AccountedFor(window: int, max: nat, calls: seq<Call>, t: Table, m: string, now: Time) {
    LastPass(calls, m) >= 0 ==>
      var since := calls[LastPass(calls, m)].now;
      m in t || now - since >= window || |Others(calls, m, since)| >= max
  }

  lemma OthersGrow(calls: seq<Call>, c: Call, m: string, since: Time)
    ensures Others(calls, m, since) <= Others(calls + [c], m, since)
    ensures |Others(calls, m, since)| <= |Others(calls + [c], m, since)|
  {
    forall k | k in Others(calls, m, since) ensures k in Others(calls + [c], m, since) {
      var i :| 0 <= i < |calls| && !calls[i].suppressed && calls[i].msg != m && calls[i].now >= since && calls[i].msg == k;
      assert (calls + [c])[i] == calls[i];
    }
    SubsetCounts(Others(calls, m, since), Others(calls + [c], m, since));
  }

  lemma RememberedAreOthers(calls: seq<Call>, t: Table, m: string, k: string, since: Time)
    requires Remembers(calls, t) && k in t && k != m && t[k] >= since
    ensures k in Others(calls, m, since)
  {
    var i := LastPass(calls, k);
    assert calls[i].msg == k;
  }

  /** Pushing an oldest entry out of a full table takes `max` other messages, the new one included. */
  lemma EvictionTakesMax(window: int, max: nat, calls: seq<Call>, t: Table, c: Call, m: string)
    requires Remembers(calls, t) && !c.suppressed && c.msg != m
    requires var p := Purged(t, window, c.now); IsOldest(p, m) && |p| >= max && c.msg !in p && t[m] <= c.now
    ensures |Others(calls + [c], m, t[m])| >= max
  {
    var p, since := Purged(t, window, c.now), t[m];
    var others := Others(calls + [c], m, since);
    OthersGrow(calls, c, m, since);
    forall k | k in p.Keys - {m} ensures k in others {
      RememberedAreOthers(calls, t, m, k, since);
    }
    assert (calls + [c])[|calls|] == c;
    assert c.msg in others;
    var pushers := p.Keys - {m} + {c.msg};
    CardinalityOfKeys(p);
    assert |pushers| == |p|;
    SubsetCounts(pushers, others);
  }

  lemma StepAccounts(window: int, max: nat, calls: seq<Call>, t: Table, c: Call, t': Table, m: string, before: Time)
    requires Remembers(calls, t) && Step(window, max, t, c, t')
    requires AccountedFor(window, max, calls, t, m, before) && before <= c.now
    requires m in t ==> t[m] <= c.now
    ensures AccountedFor(window, max, calls + [c], t', m, c.now)
  {
    LastPassOneMore(calls, c, m);
    if !(c.msg == m && !c.suppressed) && LastPass(calls, m) >= 0 {
      var since := calls[LastPass(calls, m)].now;
      OthersGrow(calls, c, m, since);
      if m in t && m !in t' && c.now - since < window {
        var p := Purged(t, window, c.now);
        var room :| MakesRoom(p, max, room) && t' == room[c.msg := c.now];
        assert m in p && m !in room;
        EvictionTakesMax(window, max, calls, t, c, m);
      }
    }
  }

  lemma RunStepAccounts(window: int, max: nat, calls: seq<Call>, tables: seq<Table>, i: nat, m: string)
    requires max >= 1 && IsRun(window, max, calls, tables) && ClockRises(calls) && i < |calls|
    requires AccountedFor(window, max, calls[..i], tables[i], m, calls[i].now)
    ensures AccountedFor(window, max, calls[..i + 1], tables[i + 1], m, calls[i].now)
  {
    RunRemembers(window, max, calls, tables, i);
    assert StepAt(window, max, calls, tables, i);
    StepAccounts(window, max, calls[..i], tables[i], calls[i], tables[i + 1], m, calls[i].now);
    assert calls[..i + 1] == calls[..i] + [calls[i]];
  }

  lemma LaterAccounts(window: int, max: nat, calls: seq<Call>, t: Table, m: string, now: Time, later: Time)
    requires AccountedFor(window, max, calls, t, m, now) && now <= later
    ensures AccountedFor(window, max, calls, t, m, later)
  {
  }

  lemma {:induction false} RunAccounts(window: int, max: nat, calls: seq<Call>, tables: seq<Table>, n: nat, m: string, now: Time)
    requires max >= 1 && IsRun(window, max, calls, tables) && ClockRises(calls) && n <= |calls|
    requires n > 0 ==> calls[n - 1].now <= now
    ensures AccountedFor(window, max, calls[..n], tables[n], m, now)
  {
    if n > 0 {
      RunAccounts(window, max, calls, tables, n - 1, m, calls[n - 1].now);
      RunStepAccounts(window, max, calls, tables, n - 1, m);
      LaterAccounts(window, max, calls[..n], tables[n], m, calls[n - 1].now, now);
    }
  }

  /** A message is let through again inside its window only after at least `max` distinct other
      messages were let through at or after its own last time. */
  lemma EscapeTakesMaxOthers(window: int, max: nat, calls: seq<Call>, tables: seq<Table>, i: nat)
    requires max >= 1 && IsRun(window, max, calls, tables) && ClockRises(calls)
    requires i < |calls| && !calls[i].suppressed
    requires var j := LastPass(calls[..i], calls[i].msg); j >= 0 && calls[i].now - calls[j].now < window
    ensures |Others(calls[..i], calls[i].msg, calls[LastPass(calls[..i], calls[i].msg)].now)| >= max
  {
    RunAccounts(window, max, calls, tables, i, calls[i].msg, calls[i].now);
    RunRemembers(window, max, calls, tables, i);
    assert StepAt(window, max, calls, tables, i);
  }

  // ---- Against the unbounded suppressor

  /** What a suppressor that forgets nothing decides on a history. */
  predicate UnboundedDecision(window: int, calls: seq<Call>, msg: string, now: Time) {
    LastPass(calls, msg) >= 0 && now - calls[LastPass(calls, msg)].now < window
  }

  /** Every call decided as the unbounded suppressor would have. */
  ghost predicate DecidesAsUnbounded(window: int, calls: seq<Call>) {
    forall i :: 0 <= i < |calls| ==> calls[i].suppressed == UnboundedDecision(window, calls[..i], calls[i].msg, calls[i].now)
  }

  /** No call finds the table full when it has something to add. */
  ghost predicate NeverFull(window: int, max: nat, calls: seq<Call>, tables: seq<Table>)
    requires |tables| == |calls| + 1
  {
    forall i :: 0 <= i < |calls| && !calls[i].suppressed ==> |Purged(tables[i], window, calls[i].now)| < max
  }

  /** All that passed inside the window is still there. */
  ghost predicate Complete(window: int, calls: seq<Call>, t: Table, now: Time) {
    forall m :: UnboundedDecision(window, calls, m, now) ==> m in t
  }

  lemma StepComplete(window: int, max: nat, calls: seq<Call>, t: Table, c: Call, t': Table, later: Time)
    requires Remembers(calls, t) && Complete(window, calls, t, c.now) && c.now <= later
    requires Step(window, max, t, c, t')
    requires !c.suppressed ==> |Purged(t, window, c.now)| < max
    ensures Complete(window, calls + [c], t', later)
  {
    forall m | UnboundedDecision(window, calls + [c], m, later) ensures m in t' {
      LastPassOneMore(calls, c, m);
      if c.msg != m || c.suppressed {
        assert UnboundedDecision(window, calls, m, c.now);
      }
    }
  }

  lemma {:induction false} RunComplete(window: int, max: nat, calls: seq<Call>, tables: seq<Table>, n: nat, now: Time)
    requires max >= 1 && IsRun(window, max, calls, tables) && ClockRises(calls) && n <= |calls|
    requires NeverFull(window, max, calls, tables)
    requires n > 0 ==> calls[n - 1].now <= now
    ensures Complete(window, calls[..n], tables[n], now)
  {
    if n > 0 {
      var before, c := calls[..n - 1], calls[n - 1];
      RunComplete(window, max, calls, tables, n - 1, c.now);
      RunRemembers(window, max, calls, tables, n - 1);
      assert StepAt(window, max, calls, tables, n - 1);
      StepComplete(window, max, before, tables[n - 1], c, tables[n], now);
      assert calls[..n] == before + [c];
    }
  }

  /** As long as nothing has to be evicted, every decision is that of the unbounded suppressor. */
  lemma WithoutEvictionTheBoundIsInvisible(window: int, max: nat, calls: seq<Call>, tables: seq<Table>)
    requires max >= 1 && IsRun(window, max, calls, tables) && ClockRises(calls)
    requires NeverFull(window, max, calls, tables)
    ensures DecidesAsUnbounded(window, calls)
  {
    forall i | 0 <= i < |calls|
      ensures calls[i].suppressed == UnboundedDecision(window, calls[..i], calls[i].msg, calls[i].now)
    {
      RunRemembers(window, max, calls, tables, i);
      RunComplete(window, max, calls, tables, i, calls[i].now);
      assert StepAt(window, max, calls, tables, i);
    }
  }

  ghost function Messages(calls: seq<Call>): set<string> {
    set i | 0 <= i < |calls| :: calls[i].msg
  }

  /** A caller with no more distinct messages than the table holds never notices the bound. */
  lemma FewMessagesNeverNotice(window: int, max: nat, calls: seq<Call>, tables: seq<Table>)
    requires max >= 1 && IsRun(window, max, calls, tables) && ClockRises(calls)
    requires |Messages(calls)| <= max
    ensures DecidesAsUnbounded(window, calls)
  {
    forall i | 0 <= i < |calls| && !calls[i].suppressed
      ensures |Purged(tables[i], window, calls[i].now)| < max
    {
      var p, msg := Purged(tables[i], window, calls[i].now), calls[i].msg;
      RunRemembers(window, max, calls, tables, i);
      assert StepAt(window, max, calls, tables, i);
      assert msg !in p && msg in Messages(calls);
      forall m | m in p.Keys + {msg} ensures m in Messages(calls) {
        if m in p {
          assert calls[LastPass(calls[..i], m)].msg == m;
        }
      }
      SubsetCounts(p.Keys + {msg}, Messages(calls));
      CardinalityOfKeys(p);
    }
    WithoutEvictionTheBoundIsInvisible(window, max, calls, tables);
  }

  /** The other messages let through less than a window before `now`. */
  ghost function Recent(calls: seq<Call>, window: int, msg: string, now: Time): set<string> {
    set i | 0 <= i < |calls| && !calls[i].suppressed && calls[i].msg != msg && now - calls[i].now < window :: calls[i].msg
  }

  /** It is enough that the table holds the messages of any one window: however many there are in all,
      if each call finds fewer than the bound of others let through within a window before it, no
      decision differs from the unbounded suppressor's. */
  lemma WindowsThatFitNeverNotice(window: int, max: nat, calls: seq<Call>, tables: seq<Table>)
    requires max >= 1 && IsRun(window, max, calls, tables) && ClockRises(calls)
    requires forall i :: 0 <= i < |calls| && !calls[i].suppressed ==>
               |Recent(calls[..i], window, calls[i].msg, calls[i].now)| < max
    ensures DecidesAsUnbounded(window, calls)
  {
    forall i | 0 <= i < |calls| && !calls[i].suppressed
      ensures |Purged(tables[i], window, calls[i].now)| < max
    {
      var p, msg := Purged(tables[i], window, calls[i].now), calls[i].msg;
      RunRemembers(window, max, calls, tables, i);
      assert StepAt(window, max, calls, tables, i);
      forall m | m in p.Keys ensures m in Recent(calls[..i], window, msg, calls[i].now) {
        assert calls[..i][LastPass(calls[..i], m)].msg == m;
      }
      SubsetCounts(p.Keys, Recent(calls[..i], window, msg, calls[i].now));
      CardinalityOfKeys(p);
    }
    WithoutEvictionTheBoundIsInvisible(window, max, calls, tables);
  }

  /** After a call that let its message through, the table holds that message with the time of the call
      and else only messages let through less than a window before; a suppressed call changes nothing. */
  lemma OnlyTheWindowIsKept(window: int, max: nat, calls: seq<Call>, tables: seq<Table>, i: nat)
    requires IsRun(window, max, calls, tables) && i < |calls|
    ensures var c, t := calls[i], tables[i + 1];
            if c.suppressed then t == tables[i]
            else
              && c.msg in t && t[c.msg] == c.now
              && forall m :: m in t && m != c.msg ==>
                   c.now - t[m] < window && LastPass(calls[..i], m) >= 0 && calls[LastPass(calls[..i], m)].now == t[m]
  {
    RunRemembers(window, max, calls, tables, i);
    assert StepAt(window, max, calls, tables, i);
  }
}

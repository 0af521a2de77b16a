/** The invariant of the Wrap protocol: every event of every run keeps it. */
module RedisWrapInvariant {
  import opened Wrappers
  import opened PoolNames
  import opened RedisWrap

  /** An entry nobody has started to commit. */
  predicate Blank(x: Entry) {
    !x.done && !x.disabled && !x.registered && !x.installed && !x.armed
  }

  /** What an entry looks like whenever its mutex is free. */
  predicate Resting(x: Entry, inTable: bool) {
    if !inTable then x.disabled && !x.registered && !x.armed && x.poolName == "" == x.owns
    else
      && x.owns == x.poolName
      && if x.done then !x.disabled && x.registered && x.installed && x.poolName != ""
         else Blank(x) && x.poolName == ""
  }

  /** What a locked entry looks like at each point of the critical section. */
  predicate Locked(th: Thread, x: Entry, inTable: bool)
    requires th.Running?
  {
    match th.at
    case Canonical | Check | Unlock => Resting(x, inTable)
    case Identity | Done => inTable && Resting(x, true)
    case Name => inTable && Resting(x, true) && !x.done
    case Record => inTable && Blank(x) && x.poolName == "" && x.owns == th.name != ""
    case Instruments => inTable && Blank(x) && x.owns == x.poolName != ""
    case Install => inTable && Blank(x.(registered := false)) && x.registered && x.owns == x.poolName != ""
    case Commit =>
      && inTable && Blank(x.(registered := false, installed := false)) && x.registered && x.installed
      && x.owns == x.poolName != ""
    case Return => inTable && Resting(x, true) && x.done
    case Disable =>
      && x.owns == x.poolName && (!inTable ==> Resting(x, false))
      && (th.op.Wrap? && !th.again ==> !x.installed)  // a Wrap that failed before installing
    case Unregister => x.disabled && x.owns == x.poolName && (!inTable ==> Resting(x, false))
    case Release => x.disabled && !x.registered && x.owns == x.poolName && (!inTable ==> Resting(x, false))
    case ClearName => x.disabled && !x.registered && x.owns == "" && (!inTable ==> Resting(x, false))
    case StopCleanup => x.disabled && !x.registered && x.owns == "" == x.poolName && (!inTable ==> Resting(x, false))
    case Delete => Resting(x, false)
    case _ => false
  }

  /** The thread is running the GC cleanup of entry e. */
  predicate Cleans(th: Thread, x: Entry, e: EntryId) {
    && th.Running? && th.op.Cleanup? && th.op.c == x.client && th.key == x.key
    && (th.at == Load || (th.e == e && (th.at == Lock || th.at == Check || th.at == Disable)))
  }

  /** The thread is a Wrap of the entry's own client that has yet to finish with entry e. */
  predicate Advances(th: Thread, x: Entry, e: EntryId) {
    && th.Running? && th.op.Wrap? && th.op.c == x.client && th.e == e
    && th.at != Load && th.at != Return && th.at != Unlock
  }

  ghost predicate EntryOk(s: State, e: EntryId)
    requires e < |s.entries|
  {
    var x := s.entries[e];
    && x.client < |s.clients| && s.clients[x.client].addr == x.key
    && (x.armed ==> x.done)
    && (x.cleaner.Some? ==> !Live(s, x.client))
    && (x.lock.None? ==> Resting(x, InTable(s, e)))
    && (x.lock.Some? ==>
          var th := ThreadOf(s, x.lock.value);
          HoldsLock(th) && th.e == e && Locked(th, x, InTable(s, e)))
    // The cleanup of a committed table entry is pending or on its way.
    && (InTable(s, e) && x.done && !x.disabled ==>
          x.armed || (x.cleaner.Some? && Cleans(ThreadOf(s, x.cleaner.value), x, e)))
    // Whoever stored an uncommitted table entry is still working on it.
    && (InTable(s, e) && !x.done ==> Advances(ThreadOf(s, x.creator), x, e))
  }

  /** The points at which Wrap knows the entry to be its own client's. */
  predicate Committing(at: Point) {
    at == Done || at == Name || at == Record || at == Instruments || at == Install || at == Commit || at == Return
  }

  predicate TearingDown(at: Point) {
    at == Disable || at == Unregister || at == Release || at == ClearName || at == StopCleanup || at == Delete
  }

  predicate ThreadOk(s: State, t: Tid) {
    var th := ThreadOf(s, t);
    th.Running? ==>
      && th.op.c < |s.clients| && s.clients[th.op.c].addr == th.key
      && Live(s, th.op.c) == !th.op.Cleanup?
      && (th.op.Wrap? && th.op.req.Chosen? ==> th.op.req.name != "")
      && (th.again ==> th.op.Wrap?)
      && (th.at == Canonical || th.at == Identity ==> th.op.Wrap? && !th.again)
      && (th.at == Check ==> !th.op.Wrap?)
      && (Committing(th.at) ==> th.op.Wrap? && !th.again)
      && (th.at == Lock || th.at == Load || th.at == Check ==> !th.again)
      && (th.at != Load ==> th.e < |s.entries| && EntryFits(s.entries[th.e], s, t, th))
  }

  /** How a thread and the entry it works on belong together. */
  predicate EntryFits(x: Entry, s: State, t: Tid, th: Thread)
    requires th.Running?
  {
    && x.key == th.key
    && (HoldsLock(th) ==> x.lock == Some(t))
    && (Committing(th.at) ==> x.client == th.op.c)
    // A teardown is of the caller's own client, or of one already collected.
    && (TearingDown(th.at) ==> if th.again then !Live(s, x.client) else x.client == th.op.c)
  }

  /** How many entries own name. */
  function Owners(entries: seq<Entry>, name: string): nat {
    if entries == [] then 0
    else Owners(entries[..|entries| - 1], name) + (if entries[|entries| - 1].owns == name then 1 else 0)
  }

  ghost predicate TableOk(s: State) {
    forall k :: k in s.table ==> s.table[k] < |s.entries| && s.entries[s.table[k]].key == k
  }

  /** Live clients have distinct addresses. */
  ghost predicate AddressesOk(s: State) {
    forall c: ClientId, d: ClientId :: Live(s, c) && Live(s, d) && s.clients[c].addr == s.clients[d].addr ==> c == d
  }

  ghost predicate HeldOk(s: State) {
    && (forall name :: name in s.held ==> s.held[name] > 0)
    && (forall name :: name != "" ==> HoldsOf(s.held, name) == Owners(s.entries, name))
  }

  ghost predicate EntriesOk(s: State) {
    forall e :: 0 <= e < |s.entries| ==> EntryOk(s, e)
  }

  ghost predicate ThreadsOk(s: State) {
    forall t: Tid :: ThreadOk(s, t)
  }

  ghost predicate Inv(s: State) {
    TableOk(s) && AddressesOk(s) && HeldOk(s) && EntriesOk(s) && ThreadsOk(s)
  }

  // ---- Frames: what a step leaves alone

  lemma {:induction false} OwnersAfterPut(entries: seq<Entry>, e: EntryId, x: Entry, name: string)
    requires e < |entries|
    ensures Owners(entries[e := x], name)
         == Owners(entries, name) - (if entries[e].owns == name then 1 else 0) + (if x.owns == name then 1 else 0)
  {
    var last := |entries| - 1;
    if e == last {
      assert entries[e := x][..last] == entries[..last];
    } else {
      assert entries[e := x][..last] == entries[..last][e := x];
      OwnersAfterPut(entries[..last], e, x, name);
    }
  }

  /** s' differs from s only in entry e and in thread t, which works on e. */
  ghost predicate TouchesOnly(s: State, s': State, t: Tid, e: EntryId) {
    && e < |s.entries| == |s'.entries|
    && s'.clients == s.clients
    && s'.entries == s.entries[e := s'.entries[e]]
    && (forall f: EntryId :: f != e ==> InTable(s', f) == InTable(s, f))
    && s'.entries[e].client == s.entries[e].client && s'.entries[e].key == s.entries[e].key
    && (forall u: Tid :: u != t ==> ThreadOf(s', u) == ThreadOf(s, u))
    && ThreadOf(s, t).Running? && ThreadOf(s, t).at != Load && ThreadOf(s, t).e == e
    && (ThreadOf(s, t).at == Lock ==> s.entries[e].lock.None?)
  }

  lemma OthersKept(s: State, s': State, t: Tid, e: EntryId)
    requires EntriesOk(s) && ThreadsOk(s) && TouchesOnly(s, s', t, e)
    requires EntryOk(s', e) && ThreadOk(s', t)
    ensures EntriesOk(s') && ThreadsOk(s')
  {
    assert ThreadOk(s, t);
    forall f | 0 <= f < |s'.entries|
      ensures EntryOk(s', f)
    {
      assert EntryOk(s, f);
    }
    forall u: Tid
      ensures ThreadOk(s', u)
    {
      assert ThreadOk(s, u);
    }
  }

  // ---- A step on an entry, seen from the thread and the entry alone

  ghost predicate LocallyOk(s: State, t: Tid, e: EntryId) {
    e < |s.entries| && EntryOk(s, e) && ThreadOk(s, t)
  }

  ghost predicate WorksOn(s: State, t: Tid, o: Outcome, e: EntryId) {
    CanStep(s, t, o) && ThreadOf(s, t).at != Load && ThreadOf(s, t).e == e
  }

  lemma CanonicalStepLocally(s: State, t: Tid, o: Outcome, e: EntryId)
    requires WorksOn(s, t, o, e) && LocallyOk(s, t, e) && ThreadOf(s, t).at == Canonical
    ensures LocallyOk(StepOnEntry(s, t, o), t, e)
  {
  }

  lemma IdentityStepLocally(s: State, t: Tid, o: Outcome, e: EntryId)
    requires WorksOn(s, t, o, e) && LocallyOk(s, t, e) && AddressesOk(s) && ThreadOf(s, t).at == Identity
    ensures LocallyOk(StepOnEntry(s, t, o), t, e)
  {
  }

  lemma LockingStepLocally(s: State, t: Tid, o: Outcome, e: EntryId)
    requires WorksOn(s, t, o, e) && LocallyOk(s, t, e)
    requires ThreadOf(s, t).at == Lock || ThreadOf(s, t).at == Check
    ensures LocallyOk(StepOnEntry(s, t, o), t, e)
  {
  }

  lemma NamingStepLocally(s: State, t: Tid, o: Outcome, e: EntryId)
    requires WorksOn(s, t, o, e) && LocallyOk(s, t, e)
    requires ThreadOf(s, t).at == Done || ThreadOf(s, t).at == Name || ThreadOf(s, t).at == Record
    ensures LocallyOk(StepOnEntry(s, t, o), t, e)
  {
    var th := ThreadOf(s, t);
    if th.at == Name && th.op.req.Default? {
      assert |Numbered(th.op.req.base, o.n)| > 0;
    }
  }

  lemma CommittingStepLocally(s: State, t: Tid, o: Outcome, e: EntryId)
    requires WorksOn(s, t, o, e) && LocallyOk(s, t, e)
    requires var at := ThreadOf(s, t).at; at == Instruments || at == Install || at == Commit || at == Return
    ensures LocallyOk(StepOnEntry(s, t, o), t, e)
  {
  }

  lemma DisablingStepLocally(s: State, t: Tid, o: Outcome, e: EntryId)
    requires WorksOn(s, t, o, e) && LocallyOk(s, t, e)
    requires ThreadOf(s, t).at == Disable || ThreadOf(s, t).at == Unregister
    ensures LocallyOk(StepOnEntry(s, t, o), t, e)
  {
  }

  lemma ReleasingStepLocally(s: State, t: Tid, o: Outcome, e: EntryId)
    requires WorksOn(s, t, o, e) && LocallyOk(s, t, e)
    requires ThreadOf(s, t).at == Release || ThreadOf(s, t).at == ClearName
    ensures LocallyOk(StepOnEntry(s, t, o), t, e)
  {
  }

  lemma ClearingStepLocally(s: State, t: Tid, o: Outcome, e: EntryId)
    requires WorksOn(s, t, o, e) && LocallyOk(s, t, e)
    requires ThreadOf(s, t).at == StopCleanup || ThreadOf(s, t).at == Delete
    ensures LocallyOk(StepOnEntry(s, t, o), t, e)
  {
  }

  lemma UnlockStepLocally(s: State, t: Tid, o: Outcome, e: EntryId)
    requires WorksOn(s, t, o, e) && LocallyOk(s, t, e) && ThreadOf(s, t).at == Unlock
    ensures LocallyOk(StepOnEntry(s, t, o), t, e)
  {
  }

  lemma StepTouchesOnly(s: State, t: Tid, o: Outcome, e: EntryId)
    requires WorksOn(s, t, o, e) && ThreadOk(s, t) && TableOk(s)
    ensures TouchesOnly(s, StepOnEntry(s, t, o), t, e) && TableOk(StepOnEntry(s, t, o))
  {
  }

  lemma {:induction false} OwnerIsCounted(entries: seq<Entry>, e: EntryId, name: string)
    requires e < |entries| && entries[e].owns == name
    ensures Owners(entries, name) > 0
  {
    if e < |entries| - 1 {
      OwnerIsCounted(entries[..|entries| - 1], e, name);
    }
  }

  /** Taking a name and giving it back move the count of exactly that name; nothing else
      changes what is held or owned. */
  lemma NamingMovesHolds(s: State, t: Tid, o: Outcome, e: EntryId, name: string)
    requires WorksOn(s, t, o, e) && LocallyOk(s, t, e) && name != "" && ThreadOf(s, t).at == Name
    ensures var s' := StepOnEntry(s, t, o);
            && s.entries[e].owns == ""
            && HoldsOf(s'.held, name) == HoldsOf(s.held, name) + (if s'.entries[e].owns == name then 1 else 0)
  {
  }

  lemma ReleaseMovesHolds(s: State, t: Tid, o: Outcome, e: EntryId, name: string)
    requires WorksOn(s, t, o, e) && LocallyOk(s, t, e) && name != "" && ThreadOf(s, t).at == Release
    requires s.entries[e].owns == name ==> HoldsOf(s.held, name) > 0
    ensures var s' := StepOnEntry(s, t, o);
            && s'.entries[e].owns == ""
            && HoldsOf(s'.held, name) == HoldsOf(s.held, name) - (if s.entries[e].owns == name then 1 else 0)
  {
  }

  lemma OtherStepsMoveNoHolds(s: State, t: Tid, o: Outcome, e: EntryId)
    requires WorksOn(s, t, o, e) && e < |s.entries| && ThreadOf(s, t).at != Name && ThreadOf(s, t).at != Release
    ensures StepOnEntry(s, t, o).held == s.held && StepOnEntry(s, t, o).entries[e].owns == s.entries[e].owns
  {
  }

  lemma HoldFollows(s: State, t: Tid, o: Outcome, e: EntryId, name: string)
    requires WorksOn(s, t, o, e) && LocallyOk(s, t, e) && name != "" && HoldsOf(s.held, name) == Owners(s.entries, name)
    ensures HoldsOf(StepOnEntry(s, t, o).held, name) == Owners(s.entries[e := StepOnEntry(s, t, o).entries[e]], name)
  {
    OwnersAfterPut(s.entries, e, StepOnEntry(s, t, o).entries[e], name);
    if ThreadOf(s, t).at == Name {
      NamingMovesHolds(s, t, o, e, name);
    } else if ThreadOf(s, t).at == Release {
      if s.entries[e].owns == name {
        OwnerIsCounted(s.entries, e, name);
      }
      ReleaseMovesHolds(s, t, o, e, name);
    } else {
      OtherStepsMoveNoHolds(s, t, o, e);
    }
  }

  lemma StepPutsOneEntry(s: State, t: Tid, o: Outcome, e: EntryId)
    requires WorksOn(s, t, o, e) && e < |s.entries|
    ensures |StepOnEntry(s, t, o).entries| == |s.entries|
    ensures StepOnEntry(s, t, o).entries == s.entries[e := StepOnEntry(s, t, o).entries[e]]
  {
  }

  lemma StepKeepsHeld(s: State, t: Tid, o: Outcome, e: EntryId)
    requires WorksOn(s, t, o, e) && LocallyOk(s, t, e) && HeldOk(s)
    ensures HeldOk(StepOnEntry(s, t, o))
  {
    StepPutsOneEntry(s, t, o, e);
    forall name | name != ""
      ensures HoldsOf(StepOnEntry(s, t, o).held, name) == Owners(StepOnEntry(s, t, o).entries, name)
    {
      HoldFollows(s, t, o, e, name);
    }
  }

  lemma WrapStepLocally(s: State, t: Tid, o: Outcome, e: EntryId)
    requires WorksOn(s, t, o, e) && LocallyOk(s, t, e) && AddressesOk(s)
    requires var at := ThreadOf(s, t).at; Committing(at) || at == Canonical || at == Identity
    ensures LocallyOk(StepOnEntry(s, t, o), t, e)
  {
    var at := ThreadOf(s, t).at;
    if at == Done || at == Name || at == Record {
      NamingStepLocally(s, t, o, e);
    } else if Committing(at) {
      CommittingStepLocally(s, t, o, e);
    } else if at == Canonical {
      CanonicalStepLocally(s, t, o, e);
    } else {
      IdentityStepLocally(s, t, o, e);
    }
  }

  lemma TeardownStepLocally(s: State, t: Tid, o: Outcome, e: EntryId)
    requires WorksOn(s, t, o, e) && LocallyOk(s, t, e) && TearingDown(ThreadOf(s, t).at)
    ensures LocallyOk(StepOnEntry(s, t, o), t, e)
  {
    var at := ThreadOf(s, t).at;
    if at == Disable || at == Unregister {
      DisablingStepLocally(s, t, o, e);
    } else if at == Release || at == ClearName {
      ReleasingStepLocally(s, t, o, e);
    } else {
      ClearingStepLocally(s, t, o, e);
    }
  }

  lemma StepLocally(s: State, t: Tid, o: Outcome, e: EntryId)
    requires WorksOn(s, t, o, e) && LocallyOk(s, t, e) && AddressesOk(s)
    ensures LocallyOk(StepOnEntry(s, t, o), t, e)
  {
    var at := ThreadOf(s, t).at;
    if TearingDown(at) {
      TeardownStepLocally(s, t, o, e);
    } else if at == Unlock {
      UnlockStepLocally(s, t, o, e);
    } else if at == Lock || at == Check {
      LockingStepLocally(s, t, o, e);
    } else {
      WrapStepLocally(s, t, o, e);
    }
  }

  lemma StepOnEntryKeepsInv(s: State, t: Tid, o: Outcome, e: EntryId)
    requires Inv(s) && WorksOn(s, t, o, e)
    ensures Inv(StepOnEntry(s, t, o))
  {
    assert ThreadOk(s, t) && EntryOk(s, e);
    StepLocally(s, t, o, e);
    StepTouchesOnly(s, t, o, e);
    StepKeepsHeld(s, t, o, e);
    OthersKept(s, StepOnEntry(s, t, o), t, e);
  }

  // ---- Lookups and the environment

  /** Only thread t's own position changes, and it holds no entry's mutex before or after. */
  lemma MoveKeepsInv(s: State, t: Tid, th: Thread)
    requires Inv(s) && ThreadOk(Set(s, t, th), t) && !HoldsLock(ThreadOf(s, t)) && !HoldsLock(th)
    requires ThreadOf(s, t).Running? ==> ThreadOf(s, t).at == Load
    requires forall e :: 0 <= e < |s.entries| && InTable(s, e) && Cleans(ThreadOf(s, t), s.entries[e], e)
               ==> Cleans(th, s.entries[e], e)
    ensures Inv(Set(s, t, th))
  {
    MoveKeepsThreads(s, t, th);
    forall e | 0 <= e < |s.entries|
      ensures EntryOk(Set(s, t, th), e)
    {
      MoveKeepsEntry(s, t, th, e);
    }
  }

  lemma MoveKeepsThreads(s: State, t: Tid, th: Thread)
    requires ThreadsOk(s) && ThreadOk(Set(s, t, th), t)
    ensures ThreadsOk(Set(s, t, th))
  {
    forall u: Tid
      ensures ThreadOk(Set(s, t, th), u)
    {
      assert ThreadOk(s, u);
    }
  }

  lemma MoveKeepsEntry(s: State, t: Tid, th: Thread, e: EntryId)
    requires Inv(s) && e < |s.entries| && !HoldsLock(ThreadOf(s, t)) && !HoldsLock(th)
    requires ThreadOf(s, t).Running? ==> ThreadOf(s, t).at == Load
    requires InTable(s, e) && Cleans(ThreadOf(s, t), s.entries[e], e) ==> Cleans(th, s.entries[e], e)
    ensures EntryOk(Set(s, t, th), e)
  {
    assert EntryOk(s, e) && InTable(Set(s, t, th), e) == InTable(s, e);
  }

  lemma StoreKeepsThreads(s: State, t: Tid)
    requires ThreadsOk(s) && ThreadOf(s, t).Running? && ThreadOf(s, t).at == Load && ThreadOf(s, t).op.Wrap?
    requires ThreadOf(s, t).key !in s.table
    ensures ThreadsOk(LoadOrStore(s, t))
  {
    assert ThreadOk(s, t);
    forall u: Tid
      ensures ThreadOk(LoadOrStore(s, t), u)
    {
      assert ThreadOk(s, u);
    }
  }

  lemma StoreKeepsInv(s: State, t: Tid)
    requires Inv(s) && ThreadOf(s, t).Running? && ThreadOf(s, t).at == Load && ThreadOf(s, t).op.Wrap?
    requires ThreadOf(s, t).key !in s.table
    ensures Inv(LoadOrStore(s, t))
  {
    var s' := LoadOrStore(s, t);
    var n := |s.entries|;
    assert ThreadOk(s, t);
    assert s'.entries[..n] == s.entries;
    StoreKeepsThreads(s, t);
    forall e | 0 <= e < |s'.entries|
      ensures EntryOk(s', e)
    {
      if e < n {
        assert EntryOk(s, e) && InTable(s', e) == InTable(s, e);
      }
    }
  }

  lemma StepKeepsInv(s: State, t: Tid, o: Outcome)
    requires Inv(s) && CanStep(s, t, o)
    ensures Inv(StepThread(s, t, o))
  {
    assert ThreadOk(s, t);
    var th := ThreadOf(s, t);
    if th.at != Load {
      StepOnEntryKeepsInv(s, t, o, th.e);
    } else if th.op.Wrap? && th.key !in s.table {
      StoreKeepsInv(s, t);
    } else {
      MoveKeepsInv(s, t, if th.key in s.table then th.(at := Lock, e := s.table[th.key]) else Idle);
    }
  }

  lemma CleanupCallKeepsThreads(s: State, ev: Event)
    requires Inv(s) && Enabled(s, ev) && ev.RunCleanup?
    ensures ThreadsOk(Apply(s, ev))
  {
    assert EntryOk(s, ev.e);
    forall u: Tid
      ensures ThreadOk(Apply(s, ev), u)
    {
      assert ThreadOk(s, u);
    }
  }

  lemma CleanupCallKeepsOwnEntry(s: State, ev: Event)
    requires Inv(s) && Enabled(s, ev) && ev.RunCleanup?
    ensures EntryOk(Apply(s, ev), ev.e)
  {
    assert EntryOk(s, ev.e) && InTable(Apply(s, ev), ev.e) == InTable(s, ev.e);
  }

  lemma CleanupCallKeepsOtherEntry(s: State, ev: Event, e: EntryId)
    requires Inv(s) && Enabled(s, ev) && ev.RunCleanup? && e < |s.entries| && e != ev.e
    ensures EntryOk(Apply(s, ev), e)
  {
    assert EntryOk(s, e) && Apply(s, ev).entries[e] == s.entries[e] && InTable(Apply(s, ev), e) == InTable(s, e);
  }

  /** A cleanup takes the entry's pending cleanup over. */
  lemma CleanupCallKeepsInv(s: State, ev: Event)
    requires Inv(s) && Enabled(s, ev) && ev.RunCleanup?
    ensures Inv(Apply(s, ev))
  {
    var s' := Apply(s, ev);
    CleanupCallKeepsThreads(s, ev);
    forall e | 0 <= e < |s'.entries|
      ensures EntryOk(s', e)
    {
      if e == ev.e {
        CleanupCallKeepsOwnEntry(s, ev);
      } else {
        CleanupCallKeepsOtherEntry(s, ev, e);
      }
    }
    forall name | name != ""
      ensures HoldsOf(s'.held, name) == Owners(s'.entries, name)
    {
      OwnersAfterPut(s.entries, ev.e, s'.entries[ev.e], name);
    }
  }

  /** A new client, even at a dead one's address. */
  lemma AllocationKeepsInv(s: State, a: Addr)
    requires Inv(s) && Enabled(s, NewClient(a))
    ensures Inv(Apply(s, NewClient(a)))
  {
    var s' := Apply(s, NewClient(a));
    assert s'.clients[..|s.clients|] == s.clients;
    EntriesHaveClients(s);
    forall u: Tid
      ensures ThreadOk(s', u)
    {
      assert ThreadOk(s, u);
      ThreadOkDespiteClients(s, s', u);
    }
    forall e | 0 <= e < |s'.entries|
      ensures EntryOk(s', e)
    {
      assert EntryOk(s, e) && InTable(s', e) == InTable(s, e);
    }
  }

  lemma CollectionKeepsInv(s: State, c: ClientId)
    requires Inv(s) && Enabled(s, Die(c))
    ensures Inv(Apply(s, Die(c)))
  {
    var s' := Apply(s, Die(c));
    EntriesHaveClients(s);
    forall u: Tid
      ensures ThreadOk(s', u)
    {
      assert ThreadOk(s, u);
      assert ThreadOf(s, u).Running? ==> u in s.threads && !KeepsAlive(s.threads[u], c);
      ThreadOkDespiteClients(s, s', u);
    }
    forall e | 0 <= e < |s'.entries|
      ensures EntryOk(s', e)
    {
      assert EntryOk(s, e) && InTable(s', e) == InTable(s, e);
    }
  }

  lemma EntriesHaveClients(s: State)
    requires EntriesOk(s)
    ensures forall e :: 0 <= e < |s.entries| ==> s.entries[e].client < |s.clients|
  {
    forall e | 0 <= e < |s.entries|
      ensures s.entries[e].client < |s.clients|
    {
      assert EntryOk(s, e);
    }
  }

  /** A thread does not notice clients that appear, or that die without its holding them. */
  lemma ThreadOkDespiteClients(s: State, s': State, u: Tid)
    requires ThreadOk(s, u) && s' == s.(clients := s'.clients) && |s.clients| <= |s'.clients|
    requires forall c :: 0 <= c < |s.clients| ==> s'.clients[c].addr == s.clients[c].addr
    requires forall c :: 0 <= c < |s.clients| && s'.clients[c].alive != s.clients[c].alive ==>
               s.clients[c].alive && !KeepsAlive(ThreadOf(s, u), c)
    requires forall e :: 0 <= e < |s.entries| ==> s.entries[e].client < |s.clients|
    ensures ThreadOk(s', u)
  {
  }

  lemma NextKeepsInv(s: State, s': State)
    requires Inv(s) && Next(s, s')
    ensures Inv(s')
  {
    var ev :| Enabled(s, ev) && s' == Apply(s, ev);
    match ev
    case Step(t, o) => StepKeepsInv(s, t, o);
    case RunCleanup(_, _) => CleanupCallKeepsInv(s, ev);
    case CallWrap(t, _, _) => MoveKeepsInv(s, t, ThreadOf(s', t));
    case CallUnwrap(t, _) => MoveKeepsInv(s, t, ThreadOf(s', t));
    case NewClient(a) => AllocationKeepsInv(s, a);
    case Die(c) => CollectionKeepsInv(s, c);
  }

  lemma {:induction false} RunKeepsInv(run: seq<State>, i: nat)
    requires IsRun(run) && i < |run|
    ensures Inv(run[i])
  {
    if i > 0 {
      RunKeepsInv(run, i - 1);
      assert Follows(run, i);
      NextKeepsInv(run[i - 1], run[i]);
    }
  }
}

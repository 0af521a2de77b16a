/**
 * The table protocol of resty.Wrap and its GC cleanup (resty/client.go:64-146): the same table
 * as redis.Wrap without teardown, so a hook generation once installed stays for the client's life.
 */
module RestyWrap {
  import opened Wrappers

  type Tid = nat
  type ClientId = nat
  type EntryId = nat
  type Addr = nat

  /** A client allocation and how often hooks were installed on it; ids are never reused, addresses are. */
  datatype Client = Client(addr: Addr, alive: bool, hooks: nat)

  /** One wrapEntry. `key`, `creator` and `cleaner` are history variables: the address it was stored
      under, the thread that stored it, and the thread its GC cleanup was started on. */
  datatype Entry = Entry(
    client: ClientId, key: Addr, lock: Option<Tid>, done: bool, armed: bool, creator: Tid, cleaner: Option<Tid>)

  datatype Point = Load | Lock | Canonical | Identity | Drop | Done | Install | Commit | Return | Check | Delete | Unlock

  /** The operation's client, where it stands, its table key and the entry it loaded. */
  datatype Thread = Idle | Running(wrap: bool, c: ClientId, at: Point, key: Addr, e: EntryId, again: bool)

  datatype State = State(clients: seq<Client>, entries: seq<Entry>, table: map<Addr, EntryId>, threads: map<Tid, Thread>)

  datatype Event =
    | NewClient(addr: Addr)
    | Die(c: ClientId)
    | CallWrap(t: Tid, c: ClientId)
    | RunCleanup(t: Tid, e: EntryId)
    | Step(t: Tid)

  function ThreadOf(s: State, t: Tid): Thread {
    if t in s.threads then s.threads[t] else Idle
  }

  predicate Live(s: State, c: ClientId) {
    c < |s.clients| && s.clients[c].alive
  }

  predicate InTable(s: State, e: EntryId) {
    e < |s.entries| && s.entries[e].key in s.table && s.table[s.entries[e].key] == e
  }

  predicate Current(s: State, th: Thread) {
    th.Running? && th.key in s.table && s.table[th.key] == th.e
  }

  predicate HoldsLock(th: Thread) {
    th.Running? && th.at != Load && th.at != Lock
  }

  ghost predicate Enabled(s: State, ev: Event) {
    match ev
    case NewClient(a) => forall c: ClientId :: Live(s, c) ==> s.clients[c].addr != a
    // A Wrap in progress keeps its client alive; a cleanup does not.
    case Die(c) => Live(s, c) && forall t :: t in s.threads ==> !(s.threads[t].Running? && s.threads[t].wrap && s.threads[t].c == c)
    case CallWrap(t, c) => ThreadOf(s, t).Idle? && Live(s, c)
    case RunCleanup(t, e) => ThreadOf(s, t).Idle? && e < |s.entries| && s.entries[e].armed && !Live(s, s.entries[e].client)
    case Step(t) =>
      var th := ThreadOf(s, t);
      && th.Running?
      && (th.at != Load ==> th.e < |s.entries|)
      && (th.at == Lock ==> s.entries[th.e].lock.None?)
      && (th.at == Install ==> th.c < |s.clients|)
  }

  function Apply(s: State, ev: Event): State
    requires Enabled(s, ev)
  {
    match ev
    case NewClient(a) => s.(clients := s.clients + [Client(a, true, 0)])
    case Die(c) => s.(clients := s.clients[c := s.clients[c].(alive := false)])
    case CallWrap(t, c) => s.(threads := s.threads[t := Running(true, c, Load, s.clients[c].addr, 0, false)])
    case RunCleanup(t, e) =>
      var x := s.entries[e];
      s.(entries := s.entries[e := x.(armed := false, cleaner := Some(t))],
         threads := s.threads[t := Running(false, x.client, Load, x.key, 0, false)])
    case Step(t) => if ThreadOf(s, t).at == Load then StepLoad(s, t) else StepOnEntry(s, t)
  }

  /** Wrap loads or stores, the cleanup loads. */
  function StepLoad(s: State, t: Tid): State
    requires ThreadOf(s, t).Running?
  {
    var th := ThreadOf(s, t);
    if th.key in s.table then s.(threads := s.threads[t := th.(at := Lock, e := s.table[th.key])])
    else if !th.wrap then s.(threads := s.threads[t := Idle])
    else
      var n := |s.entries|;
      State(s.clients, s.entries + [Entry(th.c, th.key, None, false, false, t, None)], s.table[th.key := n],
            s.threads[t := th.(at := Lock, e := n)])
  }

  function StepOnEntry(s: State, t: Tid): State
    requires ThreadOf(s, t).Running? && ThreadOf(s, t).e < |s.entries|
    requires ThreadOf(s, t).at == Install ==> ThreadOf(s, t).c < |s.clients|
  {
    var th := ThreadOf(s, t);
    var x := s.entries[th.e];
    var (th', x') := LocalStep(th, x, t, Current(s, th), Live(s, x.client));
    State(if th.at == Install then s.clients[th.c := s.clients[th.c].(hooks := s.clients[th.c].hooks + 1)] else s.clients,
          s.entries[th.e := x'],
          if (th.at == Drop || th.at == Delete) && Current(s, th) then s.table - {th.key} else s.table,
          s.threads[t := th'])
  }

  /** One step of a thread on its entry: the thread's next position and the entry's next value. */
  function LocalStep(th: Thread, x: Entry, t: Tid, current: bool, live: bool): (Thread, Entry)
    requires th.Running?
  {
    match th.at
    case Load => (th, x)
    case Lock => (th.(at := if th.wrap then Canonical else Check), x.(lock := Some(t)))
    // Wrap
    case Canonical => (if current then th.(at := Identity) else th.(at := Unlock, again := true), x)
    case Identity => (th.(at := if x.client == th.c then Done else Drop), x)
    case Drop => (th.(at := Unlock, again := true), x)
    case Done => (th.(at := if x.done then Return else Install), x)
    case Install => (th.(at := Commit), x)
    case Commit => (th.(at := Return), x.(done := true, armed := true))
    case Return => (Idle, x.(lock := None))
    // cleanupWrappedClient
    case Check => (th.(at := if x.client == th.c && !live then Delete else Unlock), x)
    case Delete => (th.(at := Unlock), x)
    case Unlock => (if th.again then th.(at := Load, again := false) else Idle, x.(lock := None))
  }

  ghost predicate Init(s: State) {
    s == State([], [], map[], map[])
  }

  ghost predicate Next(s: State, s': State) {
    exists ev :: Enabled(s, ev) && s' == Apply(s, ev)
  }

  /** State i of the run follows from the one before by some event. */
  ghost predicate Follows(run: seq<State>, i: nat)
    requires 0 < i < |run|
  {
    Next(run[i - 1], run[i])
  }

  ghost predicate IsRun(run: seq<State>) {
    |run| > 0 && Init(run[0]) && forall i :: 0 < i < |run| ==> Follows(run, i)
  }

  // ---- The invariant

  /** A thread past its identity check works on its own live client's table entry. */
  predicate Committing(at: Point) {
    at == Done || at == Install || at == Commit || at == Return
  }

  predicate ThreadOk(s: State, t: Tid) {
    var th := ThreadOf(s, t);
    th.Running? ==>
      && th.c < |s.clients| && s.clients[th.c].addr == th.key
      && (th.wrap <==> Live(s, th.c))
      && (th.at == Canonical || th.at == Identity || th.at == Drop || Committing(th.at) ==> th.wrap)
      && (th.at == Check || th.at == Delete ==> !th.wrap)
      && (th.again ==> th.wrap)
      && (th.at != Load ==> th.e < |s.entries| && s.entries[th.e].key == th.key)
      && (HoldsLock(th) ==> th.e < |s.entries| && s.entries[th.e].lock == Some(t))
      && (th.at == Drop ==> s.entries[th.e].client != th.c)
      && (Committing(th.at) ==> s.entries[th.e].client == th.c)
      && (th.at == Install || th.at == Commit ==> !s.entries[th.e].done)
      && (th.at == Return ==> s.entries[th.e].done)
      && (th.at == Delete ==> s.entries[th.e].client == th.c)
      && (th.at == Unlock && th.wrap ==> th.again)
      && (th.at == Unlock && !th.wrap && s.entries[th.e].client == th.c ==> !InTable(s, th.e))
  }

  /** Between installing the hooks and setting the flag. */
  predicate Installed(s: State, x: Entry) {
    x.lock.Some? && ThreadOf(s, x.lock.value).Running? && ThreadOf(s, x.lock.value).at == Commit
  }

  /** The thread is running the GC cleanup of entry e. */
  predicate Cleans(th: Thread, x: Entry, e: EntryId) {
    && th.Running? && !th.wrap && th.c == x.client && th.key == x.key
    && (th.at == Load || (th.e == e && (th.at == Lock || th.at == Check || th.at == Delete)))
  }

  /** The thread is a Wrap of the entry's own client that has yet to commit entry e. */
  predicate Advances(th: Thread, x: Entry, e: EntryId) {
    && th.Running? && th.wrap && th.c == x.client && th.e == e
    && (th.at == Lock || th.at == Canonical || th.at == Identity || th.at == Done || th.at == Install || th.at == Commit)
  }

  ghost predicate EntryOk(s: State, e: EntryId)
    requires e < |s.entries|
  {
    var x := s.entries[e];
    && x.client < |s.clients| && s.clients[x.client].addr == x.key
    && (Live(s, x.client) ==> InTable(s, e))
    && (x.lock.Some? ==> HoldsLock(ThreadOf(s, x.lock.value)) && ThreadOf(s, x.lock.value).e == e)
    && (Live(s, x.client) ==> s.clients[x.client].hooks == if x.done || Installed(s, x) then 1 else 0)
    && (x.armed ==> x.done)
    && (x.cleaner.Some? ==> !Live(s, x.client))
    // The cleanup of a committed table entry is pending or on its way.
    && (InTable(s, e) && x.done ==>
          x.armed || (x.cleaner.Some? && Cleans(ThreadOf(s, x.cleaner.value), x, e)))
    // Whoever stored an uncommitted table entry is still working on it.
    && (InTable(s, e) && !x.done ==> Advances(ThreadOf(s, x.creator), x, e))
  }

  /** No client ever has hooks twice, and one with hooks that is alive has its entry in the table. */
  ghost predicate ClientOk(s: State, c: ClientId)
    requires c < |s.clients|
  {
    && s.clients[c].hooks <= 1
    && (s.clients[c].alive && s.clients[c].hooks == 1 ==>
          && s.clients[c].addr in s.table && s.table[s.clients[c].addr] < |s.entries|
          && s.entries[s.table[s.clients[c].addr]].client == c)
  }

  ghost predicate Inv(s: State) {
    && (forall t: Tid :: ThreadOk(s, t))
    && (forall e: EntryId :: e < |s.entries| ==> EntryOk(s, e))
    && (forall c: ClientId :: c < |s.clients| ==> ClientOk(s, c))
    && (forall k :: k in s.table ==> s.table[k] < |s.entries| && s.entries[s.table[k]].key == k)
    && (forall c: ClientId, d: ClientId :: Live(s, c) && Live(s, d) && s.clients[c].addr == s.clients[d].addr ==> c == d)
  }

  lemma NewClientKeeps(s: State, a: Addr)
    requires Inv(s) && Enabled(s, NewClient(a))
    ensures Inv(Apply(s, NewClient(a)))
  {
    var s' := Apply(s, NewClient(a));
    forall t: Tid ensures ThreadOk(s', t) { assert ThreadOk(s, t); }
    forall e: EntryId | e < |s'.entries| ensures EntryOk(s', e) { assert EntryOk(s, e); }
    forall c: ClientId | c < |s'.clients| ensures ClientOk(s', c) { if c < |s.clients| { assert ClientOk(s, c); } }
  }

  lemma DieKeeps(s: State, c: ClientId)
    requires Inv(s) && Enabled(s, Die(c))
    ensures Inv(Apply(s, Die(c)))
  {
    var s' := Apply(s, Die(c));
    forall t: Tid ensures ThreadOk(s', t) { assert ThreadOk(s, t); }
    forall e: EntryId | e < |s'.entries| ensures EntryOk(s', e) { assert EntryOk(s, e); }
    forall d: ClientId | d < |s'.clients| ensures ClientOk(s', d) { assert ClientOk(s, d); }
  }

  lemma CallKeeps(s: State, ev: Event)
    requires Inv(s) && Enabled(s, ev) && (ev.CallWrap? || ev.RunCleanup?)
    ensures Inv(Apply(s, ev))
  {
    var s' := Apply(s, ev);
    if ev.RunCleanup? {
      assert EntryOk(s, ev.e);
    }
    forall t: Tid ensures ThreadOk(s', t) { assert ThreadOk(s, t); }
    forall e: EntryId | e < |s'.entries| ensures EntryOk(s', e) {
      assert EntryOk(s, e);
      if s.entries[e].lock.Some? { assert s.entries[e].lock.value != ev.t; }
    }
    forall c: ClientId | c < |s'.clients| ensures ClientOk(s', c) { assert ClientOk(s, c); }
  }

  lemma LoadKeepsThreads(s: State, t: Tid)
    requires Inv(s) && Enabled(s, Step(t)) && ThreadOf(s, t).at == Load
    ensures forall u: Tid :: ThreadOk(StepLoad(s, t), u)
  {
    assert ThreadOk(s, t);
    forall u: Tid ensures ThreadOk(StepLoad(s, t), u) { assert ThreadOk(s, u); }
  }

  lemma LoadKeepsEntry(s: State, t: Tid, e: EntryId)
    requires Inv(s) && Enabled(s, Step(t)) && ThreadOf(s, t).at == Load && e < |StepLoad(s, t).entries|
    ensures EntryOk(StepLoad(s, t), e)
  {
    assert ThreadOk(s, t);
    if e < |s.entries| {
      assert EntryOk(s, e);
      if s.entries[e].lock.Some? { assert s.entries[e].lock.value != t; }
    } else {
      assert ClientOk(s, ThreadOf(s, t).c);
    }
  }

  lemma LoadKeeps(s: State, t: Tid)
    requires Inv(s) && Enabled(s, Step(t)) && ThreadOf(s, t).at == Load
    ensures Inv(StepLoad(s, t))
  {
    var s' := StepLoad(s, t);
    assert ThreadOk(s, t);
    LoadKeepsThreads(s, t);
    forall e: EntryId | e < |s'.entries| ensures EntryOk(s', e) { LoadKeepsEntry(s, t, e); }
    forall c: ClientId | c < |s'.clients| ensures ClientOk(s', c) { assert ClientOk(s, c); }
  }

  /** The entry a Wrap drops for being another's belongs to a dead client, as does the one a
      cleanup deletes. */
  lemma DroppedAreDead(s: State, t: Tid)
    requires Inv(s)
    requires ThreadOf(s, t).Running? && (ThreadOf(s, t).at == Drop || ThreadOf(s, t).at == Delete)
    requires ThreadOf(s, t).e < |s.entries|
    ensures !Live(s, s.entries[ThreadOf(s, t).e].client)
  {
    assert ThreadOk(s, t);
    assert EntryOk(s, ThreadOf(s, t).e);
  }

  lemma StepKeepsThreads(s: State, t: Tid)
    requires Inv(s) && Enabled(s, Step(t)) && ThreadOf(s, t).at != Load
    ensures forall u: Tid :: ThreadOk(StepOnEntry(s, t), u)
  {
    StepKeepsItsThread(s, t);
    forall u: Tid ensures ThreadOk(StepOnEntry(s, t), u) {
      if u != t {
        StepKeepsOtherThread(s, t, u);
      }
    }
  }

  lemma CommittingKeepsItsThread(s: State, t: Tid)
    requires Inv(s) && Enabled(s, Step(t)) && ThreadOf(s, t).at != Load
    requires Committing(ThreadOf(s, t).at)
    ensures ThreadOk(StepOnEntry(s, t), t)
  {
    assert ThreadOk(s, t);
  }

  lemma RemovalKeepsItsThread(s: State, t: Tid)
    requires Inv(s) && Enabled(s, Step(t)) && ThreadOf(s, t).at != Load
    requires var at := ThreadOf(s, t).at; at == Drop || at == Check || at == Delete || at == Unlock
    ensures ThreadOk(StepOnEntry(s, t), t)
  {
    assert ThreadOk(s, t);
  }

  lemma LockedKeepsItsThread(s: State, t: Tid)
    requires Inv(s) && Enabled(s, Step(t)) && ThreadOf(s, t).at != Load
    requires var at := ThreadOf(s, t).at; at == Lock || at == Canonical || at == Identity
    ensures ThreadOk(StepOnEntry(s, t), t)
  {
    assert ThreadOk(s, t);
  }

  lemma StepKeepsItsThread(s: State, t: Tid)
    requires Inv(s) && Enabled(s, Step(t)) && ThreadOf(s, t).at != Load
    ensures ThreadOk(StepOnEntry(s, t), t)
  {
    var at := ThreadOf(s, t).at;
    if Committing(at) {
      CommittingKeepsItsThread(s, t);
    } else if at == Lock || at == Canonical || at == Identity {
      LockedKeepsItsThread(s, t);
    } else {
      RemovalKeepsItsThread(s, t);
    }
  }

  lemma StepKeepsOtherThread(s: State, t: Tid, u: Tid)
    requires Inv(s) && Enabled(s, Step(t)) && ThreadOf(s, t).at != Load && u != t
    ensures ThreadOk(StepOnEntry(s, t), u)
  {
    assert ThreadOk(s, t) && ThreadOk(s, u);
  }

  lemma WrapStepKeepsItsEntry(s: State, t: Tid)
    requires Inv(s) && Enabled(s, Step(t)) && ThreadOf(s, t).at != Load
    requires var at := ThreadOf(s, t).at; at == Canonical || at == Identity || Committing(at)
    ensures EntryOk(StepOnEntry(s, t), ThreadOf(s, t).e)
  {
    var th := ThreadOf(s, t);
    assert ThreadOk(s, t) && EntryOk(s, th.e);
  }

  lemma LockKeepsItsEntry(s: State, t: Tid)
    requires Inv(s) && Enabled(s, Step(t)) && ThreadOf(s, t).at == Lock
    ensures EntryOk(StepOnEntry(s, t), ThreadOf(s, t).e)
  {
    var th := ThreadOf(s, t);
    assert ThreadOk(s, t) && EntryOk(s, th.e);
  }

  lemma CheckKeepsItsEntry(s: State, t: Tid)
    requires Inv(s) && Enabled(s, Step(t)) && ThreadOf(s, t).at == Check
    ensures EntryOk(StepOnEntry(s, t), ThreadOf(s, t).e)
  {
    var th := ThreadOf(s, t);
    assert ThreadOk(s, t) && EntryOk(s, th.e);
  }

  lemma UnlockKeepsItsEntry(s: State, t: Tid)
    requires Inv(s) && Enabled(s, Step(t)) && ThreadOf(s, t).at == Unlock
    ensures EntryOk(StepOnEntry(s, t), ThreadOf(s, t).e)
  {
    var th := ThreadOf(s, t);
    assert ThreadOk(s, t) && EntryOk(s, th.e);
  }

  lemma RemovalKeepsItsEntry(s: State, t: Tid)
    requires Inv(s) && Enabled(s, Step(t)) && ThreadOf(s, t).at != Load
    requires ThreadOf(s, t).at == Drop || ThreadOf(s, t).at == Delete
    ensures EntryOk(StepOnEntry(s, t), ThreadOf(s, t).e)
  {
    var th := ThreadOf(s, t);
    assert ThreadOk(s, t) && EntryOk(s, th.e);
    DroppedAreDead(s, t);
  }

  lemma StepKeepsItsEntry(s: State, t: Tid)
    requires Inv(s) && Enabled(s, Step(t)) && ThreadOf(s, t).at != Load
    ensures EntryOk(StepOnEntry(s, t), ThreadOf(s, t).e)
  {
    var at := ThreadOf(s, t).at;
    if at == Drop || at == Delete {
      RemovalKeepsItsEntry(s, t);
    } else if at == Lock {
      LockKeepsItsEntry(s, t);
    } else if at == Check {
      CheckKeepsItsEntry(s, t);
    } else if at == Unlock {
      UnlockKeepsItsEntry(s, t);
    } else {
      WrapStepKeepsItsEntry(s, t);
    }
  }

  lemma RemovalKeepsOtherEntry(s: State, t: Tid, e: EntryId)
    requires Inv(s) && Enabled(s, Step(t)) && e < |s.entries| && e != ThreadOf(s, t).e
    requires ThreadOf(s, t).at == Drop || ThreadOf(s, t).at == Delete
    ensures EntryOk(StepOnEntry(s, t), e)
  {
    assert ThreadOk(s, t) && EntryOk(s, e);
    DroppedAreDead(s, t);
    if s.entries[e].lock.Some? {
      assert s.entries[e].lock.value != t;
    }
  }

  /** Hooks installed on a client are those of its own table entry alone. */
  lemma InstallKeepsOtherEntry(s: State, t: Tid, e: EntryId)
    requires Inv(s) && Enabled(s, Step(t)) && ThreadOf(s, t).at == Install && e < |s.entries| && e != ThreadOf(s, t).e
    ensures EntryOk(StepOnEntry(s, t), e)
  {
    assert ThreadOk(s, t) && EntryOk(s, e) && EntryOk(s, ThreadOf(s, t).e);
    if s.entries[e].lock.Some? {
      assert s.entries[e].lock.value != t;
    }
  }

  lemma PlainStepKeepsOtherEntry(s: State, t: Tid, e: EntryId)
    requires Inv(s) && Enabled(s, Step(t)) && e < |s.entries| && e != ThreadOf(s, t).e
    requires var at := ThreadOf(s, t).at; at != Load && at != Install && at != Drop && at != Delete
    ensures EntryOk(StepOnEntry(s, t), e)
  {
    assert ThreadOk(s, t) && EntryOk(s, e);
    if s.entries[e].lock.Some? {
      assert s.entries[e].lock.value != t;
    }
  }

  lemma StepKeepsOtherEntry(s: State, t: Tid, e: EntryId)
    requires Inv(s) && Enabled(s, Step(t)) && ThreadOf(s, t).at != Load && e < |s.entries| && e != ThreadOf(s, t).e
    ensures EntryOk(StepOnEntry(s, t), e)
  {
    var th := ThreadOf(s, t);
    if th.at == Drop || th.at == Delete {
      RemovalKeepsOtherEntry(s, t, e);
    } else if th.at == Install {
      InstallKeepsOtherEntry(s, t, e);
    } else {
      PlainStepKeepsOtherEntry(s, t, e);
    }
  }

  lemma StepKeepsClient(s: State, t: Tid, c: ClientId)
    requires Inv(s) && Enabled(s, Step(t)) && ThreadOf(s, t).at != Load && c < |s.clients|
    ensures ClientOk(StepOnEntry(s, t), c)
  {
    var s', th := StepOnEntry(s, t), ThreadOf(s, t);
    assert ThreadOk(s, t) && EntryOk(s, th.e) && ClientOk(s, c);
    if th.at == Drop || th.at == Delete {
      DroppedAreDead(s, t);
    }
  }

  lemma StepKeeps(s: State, t: Tid)
    requires Inv(s) && Enabled(s, Step(t)) && ThreadOf(s, t).at != Load
    ensures Inv(StepOnEntry(s, t))
  {
    var s' := StepOnEntry(s, t);
    StepKeepsThreads(s, t);
    forall e: EntryId | e < |s'.entries| ensures EntryOk(s', e) {
      if e == ThreadOf(s, t).e {
        StepKeepsItsEntry(s, t);
      } else {
        StepKeepsOtherEntry(s, t, e);
      }
    }
    forall c: ClientId | c < |s'.clients| ensures ClientOk(s', c) { StepKeepsClient(s, t, c); }
  }

  lemma NextKeepsInv(s: State, ev: Event)
    requires Inv(s) && Enabled(s, ev)
    ensures Inv(Apply(s, ev))
  {
    match ev
    case NewClient(a) => NewClientKeeps(s, a);
    case Die(c) => DieKeeps(s, c);
    case CallWrap(_, _) => CallKeeps(s, ev);
    case RunCleanup(_, _) => CallKeeps(s, ev);
    case Step(t) => if ThreadOf(s, t).at == Load { LoadKeeps(s, t); } else { StepKeeps(s, t); }
  }

  lemma {:induction false} RunKeepsInv(run: seq<State>, i: nat)
    requires IsRun(run) && i < |run|
    ensures Inv(run[i])
  {
    if i > 0 {
      RunKeepsInv(run, i - 1);
      assert Follows(run, i);
      var ev :| Enabled(run[i - 1], ev) && run[i] == Apply(run[i - 1], ev);
      NextKeepsInv(run[i - 1], ev);
    }
  }

  // ---- Guarantees

  /** However often and from however many goroutines a client is wrapped, its hooks are installed at
      most once; a Wrap about to return leaves them installed exactly once. */
  lemma HooksAreInstalledOnce(run: seq<State>, i: nat)
    requires IsRun(run) && i < |run|
    ensures forall c: ClientId :: c < |run[i].clients| ==> run[i].clients[c].hooks <= 1
    ensures forall t: Tid :: ReturnsFromWrap(run[i], t) ==> run[i].clients[ThreadOf(run[i], t).c].hooks == 1
  {
    var s := run[i];
    RunKeepsInv(run, i);
    forall c: ClientId | c < |s.clients| ensures s.clients[c].hooks <= 1 {
      assert ClientOk(s, c);
    }
    forall t: Tid | ReturnsFromWrap(s, t) ensures s.clients[ThreadOf(s, t).c].hooks == 1 {
      assert ThreadOk(s, t) && EntryOk(s, ThreadOf(s, t).e);
    }
  }

  predicate ReturnsFromWrap(s: State, t: Tid) {
    ThreadOf(s, t).Running? && ThreadOf(s, t).at == Return && ThreadOf(s, t).c < |s.clients|
  }

  /** A live client's entry never leaves the table, whatever addresses are reused around it. */
  lemma LiveEntriesStay(run: seq<State>, i: nat, e: EntryId)
    requires IsRun(run) && i < |run| && e < |run[i].entries| && Live(run[i], run[i].entries[e].client)
    ensures InTable(run[i], e)
  {
    RunKeepsInv(run, i);
    assert EntryOk(run[i], e);
  }

  /** A Wrap ends only by returning with the hooks installed: one that unlocks before that tries again. */
  lemma WrapNeverGivesUp(run: seq<State>, i: nat, t: Tid)
    requires IsRun(run) && i + 1 < |run| && ThreadOf(run[i], t).Running? && ThreadOf(run[i], t).wrap
    requires ThreadOf(run[i + 1], t).Idle?
    ensures ReturnsFromWrap(run[i], t) && run[i].clients[ThreadOf(run[i], t).c].hooks == 1
  {
    RunKeepsInv(run, i);
    HooksAreInstalledOnce(run, i);
    assert ThreadOk(run[i], t) && Follows(run, i + 1);
  }

  /** A cleanup about to unlock its collected client's entry has taken it out of the table. */
  lemma CleanupRemovesItsEntry(run: seq<State>, i: nat, t: Tid)
    requires IsRun(run) && i < |run| && ThreadOf(run[i], t).Running? && !ThreadOf(run[i], t).wrap
    requires ThreadOf(run[i], t).at == Unlock
    ensures var s, th := run[i], ThreadOf(run[i], t);
            && th.e < |s.entries| && !Live(s, th.c)
            && (s.entries[th.e].client == th.c ==> !InTable(s, th.e))
  {
    RunKeepsInv(run, i);
    assert ThreadOk(run[i], t);
  }

  /** The table entry of a collected client is still going to be cleaned up. */
  lemma CollectedClientIsCleanedUp(run: seq<State>, i: nat, e: EntryId)
    requires IsRun(run) && i < |run| && e < |run[i].entries| && InTable(run[i], e)
    requires !Live(run[i], run[i].entries[e].client)
    ensures var x := run[i].entries[e];
            x.done && (x.armed || (x.cleaner.Some? && Cleans(ThreadOf(run[i], x.cleaner.value), x, e)))
  {
    RunKeepsInv(run, i);
    var s, x := run[i], run[i].entries[e];
    assert EntryOk(s, e) && ThreadOk(s, x.creator);
  }
}

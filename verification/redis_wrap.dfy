/**
 The table protocol of redis.Wrap, Unwrap and the GC cleanup (redis/client.go).

 Threads run the three operations one atomic step at a time over a shared table
 keyed by client address. The environment allocates clients, may let a client
 die once no thread holds it, and may reuse a dead client's address.
 */
module RedisWrap {
  import opened Wrappers
  import opened PoolNames

  type Tid = nat
  type ClientId = nat
  type EntryId = nat
  type Addr = nat

  /** A client allocation; ids are never reused, addresses are. */
  datatype Client = Client(addr: Addr, alive: bool)

  /** One wrapEntry. `key`, `creator`, `owns` and `cleaner` are history variables:
      the address it was stored under, the thread that stored it, the name it holds
      in the allocator, and the thread its GC cleanup was started on. */
  datatype Entry = Entry(
    client: ClientId, lock: Option<Tid>, done: bool, disabled: bool, registered: bool,
    installed: bool, armed: bool, poolName: string,
    key: Addr, creator: Tid, owns: string, cleaner: Option<Tid>)

  datatype NameRequest = Chosen(name: string) | Default(base: string)

  datatype Op = Wrap(c: ClientId, req: NameRequest) | Unwrap(c: ClientId) | Cleanup(c: ClientId)

  /** Where a thread stands: about to take the named step. */
  datatype Point =
    | Load | Lock
    | Canonical | Identity | Done | Name | Record | Instruments | Install | Commit | Return  // Wrap
    | Check                                                                              // Unwrap, cleanup
    | Disable | Unregister | Release | ClearName | StopCleanup | Delete                  // detach, CompareAndDelete
    | Unlock

  /** `key` is the address the operation works on, `e` the entry it loaded, `name` the pool
      name it has just taken, `again` whether Wrap restarts after unlocking. */
  datatype Thread = Idle | Running(op: Op, at: Point, key: Addr, e: EntryId, name: string, again: bool)

  datatype State = State(
    clients: seq<Client>, entries: seq<Entry>, table: map<Addr, EntryId>,
    held: Holds, threads: map<Tid, Thread>)

  /** The nondeterminism of one step: whether a fallible call fails, and which number a default name gets. */
  datatype Outcome = Ok | Fail | Number(n: nat)

  datatype Event =
    | NewClient(addr: Addr)
    | Die(c: ClientId)
    | CallWrap(t: Tid, c: ClientId, req: NameRequest)
    | CallUnwrap(t: Tid, c: ClientId)
    | RunCleanup(t: Tid, e: EntryId)
    | Step(t: Tid, outcome: Outcome)

  function ThreadOf(s: State, t: Tid): Thread {
    if t in s.threads then s.threads[t] else Idle
  }

  function Set(s: State, t: Tid, th: Thread): State {
    s.(threads := s.threads[t := th])
  }

  function Put(s: State, e: EntryId, x: Entry): State
    requires e < |s.entries|
  {
    s.(entries := s.entries[e := x])
  }

  predicate Live(s: State, c: ClientId) {
    c < |s.clients| && s.clients[c].alive
  }

  predicate InTable(s: State, e: EntryId) {
    e < |s.entries| && s.entries[e].key in s.table && s.table[s.entries[e].key] == e
  }

  /** The thread holds the mutex of its entry. */
  predicate HoldsLock(th: Thread) {
    th.Running? && th.at != Load && th.at != Lock
  }

  /** Wrap and Unwrap hold a strong reference to their client; the cleanup does not. */
  predicate KeepsAlive(th: Thread, c: ClientId) {
    th.Running? && !th.op.Cleanup? && th.op.c == c
  }

  ghost predicate Enabled(s: State, ev: Event) {
    match ev
    case NewClient(a) => forall c: ClientId :: Live(s, c) ==> s.clients[c].addr != a
    case Die(c) => Live(s, c) && forall t :: t in s.threads ==> !KeepsAlive(s.threads[t], c)
    case CallWrap(t, c, req) => ThreadOf(s, t).Idle? && Live(s, c) && (req.Chosen? ==> req.name != "")
    case CallUnwrap(t, c) => ThreadOf(s, t).Idle? && Live(s, c)
    case RunCleanup(t, e) =>
      ThreadOf(s, t).Idle? && e < |s.entries| && s.entries[e].armed && !Live(s, s.entries[e].client)
    case Step(t, o) => CanStep(s, t, o)
  }

  ghost predicate CanStep(s: State, t: Tid, o: Outcome) {
    var th := ThreadOf(s, t);
    && th.Running?
    && (th.at != Load ==> th.e < |s.entries|)
    && (th.at == Lock ==> s.entries[th.e].lock.None?)
    && (th.at == Name ==> th.op.Wrap?)
    && (th.at == Name && th.op.req.Default? ==> o.Number? && IsLowestFree(s.held, th.op.req.base, o.n))
  }

  function Apply(s: State, ev: Event): State
    requires Enabled(s, ev)
  {
    match ev
    case NewClient(a) => s.(clients := s.clients + [Client(a, true)])
    case Die(c) => s.(clients := s.clients[c := s.clients[c].(alive := false)])
    case CallWrap(t, c, req) => Set(s, t, Running(Wrap(c, req), Load, s.clients[c].addr, 0, "", false))
    case CallUnwrap(t, c) => Set(s, t, Running(Unwrap(c), Load, s.clients[c].addr, 0, "", false))
    case RunCleanup(t, e) =>
      var x := s.entries[e];
      Set(Put(s, e, x.(armed := false, cleaner := Some(t))), t,
          Running(Cleanup(x.client), Load, x.key, 0, "", false))
    case Step(t, o) => StepThread(s, t, o)
  }

  function StepThread(s: State, t: Tid, o: Outcome): State
    requires CanStep(s, t, o)
  {
    var th := ThreadOf(s, t);
    if th.at == Load then
      if th.op.Wrap? then LoadOrStore(s, t)
      else if th.key in s.table then Set(s, t, th.(at := Lock, e := s.table[th.key]))
      else Set(s, t, Idle)
    else StepOnEntry(s, t, o)
  }

  /** Wrap's lookup: the entry in the table, or a new placeholder stored there. */
  function LoadOrStore(s: State, t: Tid): State
    requires ThreadOf(s, t).Running?
  {
    var th := ThreadOf(s, t);
    if th.key in s.table then
      Set(s, t, th.(at := Lock, e := s.table[th.key]))
    else
      var n := |s.entries|;
      var placeholder := Entry(th.op.c, None, false, false, false, false, false, "", th.key, t, "", None);
      Set(s, t, th.(at := Lock, e := n)).(entries := s.entries + [placeholder], table := s.table[th.key := n])
  }

  /** The table still maps the thread's key to the entry it loaded. */
  predicate Current(s: State, th: Thread) {
    th.Running? && th.key in s.table && s.table[th.key] == th.e
  }

  function StepOnEntry(s: State, t: Tid, o: Outcome): State
    requires CanStep(s, t, o) && ThreadOf(s, t).at != Load
  {
    var th := ThreadOf(s, t);
    var x := s.entries[th.e];
    var (th', x') := LocalStep(th, x, t, o, Current(s, th), Live(s, x.client));
    State(s.clients, s.entries[th.e := x'],
          if th.at == Delete && Current(s, th) then s.table - {th.key} else s.table,
          if th.at == Name then s.held[x'.owns := HoldsOf(s.held, x'.owns) + 1]
          else if th.at == Release && x.poolName != "" then Released(s.held, x.poolName)
          else s.held,
          s.threads[t := th'])
  }

  /** One step of a thread on its entry: the thread's next position and the entry's next value. */
  function LocalStep(th: Thread, x: Entry, t: Tid, o: Outcome, current: bool, live: bool): (Thread, Entry)
    requires th.Running? && (th.at == Name ==> th.op.Wrap? && (th.op.req.Default? ==> o.Number?))
  {
    match th.at
    case Load => (th, x)
    case Lock => (th.(at := if th.op.Wrap? then Canonical else Check), x.(lock := Some(t)))
    // Wrap
    case Canonical => (if current then th.(at := Identity) else th.(at := Unlock, again := true), x)
    case Identity => (if x.client == th.op.c then th.(at := Done) else th.(at := Disable, again := true), x)
    case Done => (th.(at := if x.done then Return else Name), x)
    case Name =>
      var name := if th.op.req.Chosen? then th.op.req.name else Numbered(th.op.req.base, o.n);
      (th.(at := Record, name := name), x.(owns := name))
    case Record => (th.(at := Instruments), x.(poolName := th.name))
    case Instruments => if o.Fail? then (th.(at := Disable), x) else (th.(at := Install), x.(registered := true))
    case Install => (th.(at := Commit), x.(installed := true))
    case Commit => (th.(at := Return), x.(done := true, armed := true))
    case Return => (Idle, x.(lock := None))
    // Unwrap and cleanupWrappedClient
    case Check =>
      (th.(at := if x.client == th.op.c && !(th.op.Cleanup? && live) then Disable else Unlock), x)
    // detach, then CompareAndDelete, then unlock
    case Disable => (th.(at := Unregister), x.(disabled := true))
    case Unregister => (th.(at := Release), x.(registered := false))
    case Release => (th.(at := ClearName), x.(owns := if x.poolName == "" then x.owns else ""))
    case ClearName => (th.(at := StopCleanup), x.(poolName := ""))
    case StopCleanup => (th.(at := Delete), if x.done then x.(armed := false) else x)
    case Delete => (th.(at := Unlock), x)
    case Unlock => (if th.again then th.(at := Load, again := false) else Idle, x.(lock := None))
  }

  ghost predicate Init(s: State) {
    s == State([], [], map[], map[], map[])
  }

  ghost predicate Next(s: State, s': State) {
    exists ev :: Enabled(s, ev) && s' == Apply(s, ev)
  }

  /** State i of the run follows from the one before by some event. */
  ghost predicate Follows(run: seq<State>, i: nat)
    requires 0 < i < |run|
  {
    Next(run[i - 1], run[i])
  }

  ghost predicate IsRun(run: seq<State>) {
    |run| > 0 && Init(run[0]) && forall i :: 0 < i < |run| ==> Follows(run, i)
  }
}

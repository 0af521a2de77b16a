/** Which names the wrappers take, and what Unwrap leaves of its client's entry, in every run. */
module RedisWrapNames {
  import opened Wrappers
  import opened PoolNames
  import opened RedisWrap
  import opened RedisWrapInvariant
  import opened RedisWrapGuarantees

  /** Between s and s' thread t takes the name of the entry it is committing. */
  ghost predicate TakesName(s: State, s': State, t: Tid) {
    ThreadOf(s, t).Running? && ThreadOf(s, t).at == Name && ThreadOf(s', t) != ThreadOf(s, t)
  }

  ghost predicate TakesDefault(s: State, s': State, t: Tid) {
    TakesName(s, s', t) && ThreadOf(s, t).op.Wrap? && ThreadOf(s, t).op.req.Default?
  }

  /** A held name that rules name out: name itself, or a shard name derived from it. */
  ghost predicate RulesOut(h: string, name: string) {
    h == name || name + "/" <= h
  }

  /** held rules out the name base-n. */
  ghost predicate Taken(held: Holds, base: string, n: nat) {
    exists h :: h in held && RulesOut(h, base + "-" + Decimal(n))
  }

  /** name is base-n for the lowest n from 1 on that nothing in held rules out. */
  ghost predicate LowestNumber(held: Holds, base: string, name: string, n: nat) {
    n >= 1 && name == base + "-" + Decimal(n) && forall m: nat :: 1 <= m < n ==> Taken(held, base, m)
  }

  lemma NotFreeIsTaken(held: Holds, base: string, n: nat)
    requires !IsFree(held, Numbered(base, n))
    ensures Taken(held, base, n)
  {
    if Numbered(base, n) in held {
      assert RulesOut(Numbered(base, n), base + "-" + Decimal(n));
    } else {
      var h :| h in held && Numbered(base, n) + "/" <= h;
      assert RulesOut(h, base + "-" + Decimal(n));
    }
  }

  lemma LowestFreeIsLowestNumber(held: Holds, base: string, n: nat)
    requires IsLowestFree(held, base, n)
    ensures LowestNumber(held, base, Numbered(base, n), n)
    ensures forall h :: h in held ==> !RulesOut(h, Numbered(base, n))
  {
    forall m: nat | 1 <= m < n
      ensures Taken(held, base, m)
    {
      NotFreeIsTaken(held, base, m);
    }
  }

  lemma OnlyItsOwnStepNames(s: State, s': State, t: Tid) returns (o: Outcome)
    requires Next(s, s') && TakesName(s, s', t)
    ensures CanStep(s, t, o) && s' == StepOnEntry(s, t, o)
  {
    var ev :| Enabled(s, ev) && s' == Apply(s, ev);
    assert ev.Step? && ev.t == t;
    o := ev.outcome;
  }

  /** A default request takes a name nothing held rules out, with the lowest such number;
      a caller's own name is taken as it is. The name is held once more than before,
      and no other entry's name changes. */
  lemma NamingTakesTheLowestFreeName(run: seq<State>, i: nat, t: Tid)
    requires IsRun(run) && i + 1 < |run| && TakesName(run[i], run[i + 1], t)
    ensures var th, s, s' := ThreadOf(run[i], t), run[i], run[i + 1];
            && th.op.Wrap? && th.e < |s.entries| == |s'.entries|
            && s.entries[th.e].owns == "" != s'.entries[th.e].owns
            && (th.op.req.Chosen? ==> s'.entries[th.e].owns == th.op.req.name)
            && (th.op.req.Default? ==>
                  && (forall h :: h in s.held ==> !RulesOut(h, s'.entries[th.e].owns))
                  && exists n: nat :: LowestNumber(s.held, th.op.req.base, s'.entries[th.e].owns, n))
            && HoldsOf(s'.held, s'.entries[th.e].owns) == HoldsOf(s.held, s'.entries[th.e].owns) + 1
            && (forall name :: name != s'.entries[th.e].owns ==> HoldsOf(s'.held, name) == HoldsOf(s.held, name))
            && forall f: EntryId :: f < |s.entries| && f != th.e ==> s'.entries[f] == s.entries[f]
  {
    var s, s' := run[i], run[i + 1];
    RunKeepsInv(run, i);
    assert Follows(run, i + 1);
    var o := OnlyItsOwnStepNames(s, s', t);
    var th := ThreadOf(s, t);
    assert ThreadOk(s, t) && EntryOk(s, th.e);
    if th.op.req.Default? {
      LowestFreeIsLowestNumber(s.held, th.op.req.base, o.n);
    }
  }

  lemma OneNamesAtATime(s: State, s': State, t: Tid, u: Tid)
    requires Next(s, s') && TakesName(s, s', t) && TakesName(s, s', u)
    ensures t == u
  {
    var o := OnlyItsOwnStepNames(s, s', t);
  }

  // ---- What becomes of a name once taken

  /** What any event may do to an entry's name: keep it, give it back with the entry off,
      or give one to an entry that has none and is not off. Off is for good. */
  predicate NameMoves(x: Entry, x': Entry) {
    && (x.disabled ==> x'.disabled)
    && (x'.owns == x.owns || (x'.owns == "" && x'.disabled) || (x.owns == "" && !x.disabled))
  }

  lemma NamingMovesName(s: State, t: Tid, o: Outcome, e: EntryId)
    requires WorksOn(s, t, o, e) && LocallyOk(s, t, e) && ThreadOf(s, t).at == Name
    ensures NameMoves(s.entries[e], StepOnEntry(s, t, o).entries[e])
  {
  }

  lemma ReleaseMovesName(s: State, t: Tid, o: Outcome, e: EntryId)
    requires WorksOn(s, t, o, e) && LocallyOk(s, t, e) && ThreadOf(s, t).at == Release
    ensures NameMoves(s.entries[e], StepOnEntry(s, t, o).entries[e])
  {
  }

  lemma StepMovesName(s: State, t: Tid, o: Outcome, e: EntryId)
    requires WorksOn(s, t, o, e) && LocallyOk(s, t, e)
    ensures |StepOnEntry(s, t, o).entries| == |s.entries| && NameMoves(s.entries[e], StepOnEntry(s, t, o).entries[e])
  {
    StepPutsOneEntry(s, t, o, e);
    if ThreadOf(s, t).at == Name {
      NamingMovesName(s, t, o, e);
    } else if ThreadOf(s, t).at == Release {
      ReleaseMovesName(s, t, o, e);
    } else {
      OtherStepsMoveNoHolds(s, t, o, e);
    }
  }

  lemma EventMovesName(s: State, ev: Event, e: EntryId)
    requires Inv(s) && Enabled(s, ev) && e < |s.entries|
    ensures e < |Apply(s, ev).entries| && NameMoves(s.entries[e], Apply(s, ev).entries[e])
  {
    if ev.Step? && ThreadOf(s, ev.t).at != Load {
      var f := ThreadOf(s, ev.t).e;
      assert ThreadOk(s, ev.t) && EntryOk(s, f);
      StepPutsOneEntry(s, ev.t, ev.outcome, f);
      StepMovesName(s, ev.t, ev.outcome, f);
    }
  }

  lemma NextMovesName(s: State, s': State, e: EntryId)
    requires Inv(s) && Next(s, s') && e < |s.entries|
    ensures e < |s'.entries| && NameMoves(s.entries[e], s'.entries[e])
  {
    var ev :| Enabled(s, ev) && s' == Apply(s, ev);
    EventMovesName(s, ev, e);
  }

  /** The entry still owns the name it took, or was turned off and gave it back. */
  predicate StillOrGone(x: Entry, name: string) {
    x.owns == name || Gone(x)
  }

  predicate Gone(x: Entry) {
    x.owns == "" && x.disabled
  }

  lemma RunMovesName(run: seq<State>, i: nat, e: EntryId)
    requires IsRun(run) && i + 1 < |run| && e < |run[i].entries|
    ensures e < |run[i + 1].entries| && NameMoves(run[i].entries[e], run[i + 1].entries[e])
  {
    RunKeepsInv(run, i);
    assert Follows(run, i + 1);
    NextMovesName(run[i], run[i + 1], e);
  }

  lemma MovingKeepsStillOrGone(x: Entry, x': Entry, name: string)
    requires NameMoves(x, x') && name != "" && StillOrGone(x, name)
    ensures StillOrGone(x', name) && (Gone(x) ==> Gone(x'))
  {
  }

  lemma {:induction false} StaysStillOrGone(run: seq<State>, i: nat, j: nat, e: EntryId, name: string)
    requires IsRun(run) && i <= j < |run| && e < |run[i].entries| && name != "" && StillOrGone(run[i].entries[e], name)
    ensures e < |run[j].entries| && StillOrGone(run[j].entries[e], name)
    ensures Gone(run[i].entries[e]) ==> Gone(run[j].entries[e])
  {
    if i < j {
      StaysStillOrGone(run, i, j - 1, e, name);
      RunMovesName(run, j - 1, e);
      MovingKeepsStillOrGone(run[j - 1].entries[e], run[j].entries[e], name);
    }
  }

  /** A name somebody owns is held, so a default request is never given it. */
  lemma OwnedIsHeld(s: State, e: EntryId, name: string)
    requires Inv(s) && e < |s.entries| && name != "" && s.entries[e].owns == name
    ensures name in s.held
  {
    OwnerIsCounted(s.entries, e, name);
  }

  lemma NamingGivesAName(run: seq<State>, i: nat, t: Tid)
    requires IsRun(run) && i + 1 < |run| && TakesName(run[i], run[i + 1], t)
    ensures var e := ThreadOf(run[i], t).e;
            && e < |run[i].entries| == |run[i + 1].entries| && run[i + 1].entries[e].owns != ""
            && (TakesDefault(run[i], run[i + 1], t) ==> run[i + 1].entries[e].owns !in run[i].held)
  {
    NamingTakesTheLowestFreeName(run, i, t);
    if TakesDefault(run[i], run[i + 1], t) {
      var name := run[i + 1].entries[ThreadOf(run[i], t).e].owns;
      assert RulesOut(name, name);
    }
  }

  /** What the entry a thread names at step j owns later on, at i. */
  lemma OwnsLater(run: seq<State>, j: nat, i: nat, t: Tid)
    requires IsRun(run) && j < i < |run| && TakesName(run[j], run[j + 1], t)
    ensures var e := ThreadOf(run[j], t).e;
            && e < |run[j + 1].entries| && e < |run[i].entries| && run[j + 1].entries[e].owns != ""
            && StillOrGone(run[i].entries[e], run[j + 1].entries[e].owns)
  {
    NamingGivesAName(run, j, t);
    var e := ThreadOf(run[j], t).e;
    StaysStillOrGone(run, j + 1, i, e, run[j + 1].entries[e].owns);
  }

  /** A default name is not one that an entry still owns when it is taken. */
  lemma DefaultIsNotOwned(run: seq<State>, k: nat, u: Tid, e: EntryId)
    requires IsRun(run) && k + 1 < |run| && TakesDefault(run[k], run[k + 1], u) && e < |run[k].entries|
    ensures var f := ThreadOf(run[k], u).e;
            f < |run[k + 1].entries| && run[k + 1].entries[f].owns != run[k].entries[e].owns
  {
    NamingGivesAName(run, k, u);
    RunKeepsInv(run, k);
    if run[k].entries[e].owns != "" {
      OwnedIsHeld(run[k], e, run[k].entries[e].owns);
    }
  }

  /** Two entries, named in this order: at the second naming the first still owns its name
      or is gone, so the names differ unless the first has been given back. */
  lemma OwnersApart(atSecond: Entry, x: Entry, y: Entry, first: string, second: string)
    requires first != "" && second != "" && second != atSecond.owns
    requires StillOrGone(atSecond, first) && StillOrGone(x, first) && StillOrGone(y, second)
    requires Gone(atSecond) ==> Gone(x)
    ensures x.owns == y.owns ==> x.owns == ""
  {
  }

  lemma LaterNameIsApart(run: seq<State>, i: nat, j: nat, k: nat, t: Tid, u: Tid)
    requires IsRun(run) && j < k < i < |run|
    requires TakesName(run[j], run[j + 1], t) && TakesDefault(run[k], run[k + 1], u)
    requires ThreadOf(run[j], t).e != ThreadOf(run[k], u).e
    ensures var e, f := ThreadOf(run[j], t).e, ThreadOf(run[k], u).e;
            && e < |run[i].entries| && f < |run[i].entries|
            && (run[i].entries[e].owns == run[i].entries[f].owns ==> run[i].entries[e].owns == "")
  {
    var e, f := ThreadOf(run[j], t).e, ThreadOf(run[k], u).e;
    OwnsLater(run, j, k, t);
    OwnsLater(run, j, i, t);
    OwnsLater(run, k, i, u);
    StaysStillOrGone(run, k, i, e, run[j + 1].entries[e].owns);
    DefaultIsNotOwned(run, k, u, e);
    OwnersApart(run[k].entries[e], run[i].entries[e], run[i].entries[f], run[j + 1].entries[e].owns, run[k + 1].entries[f].owns);
  }

  /** No two entries named by default ever own the same name at the same time. */
  lemma DefaultNamesAreApart(run: seq<State>, i: nat, j: nat, k: nat, t: Tid, u: Tid)
    requires IsRun(run) && j < i < |run| && k < i
    requires TakesDefault(run[j], run[j + 1], t) && TakesDefault(run[k], run[k + 1], u)
    requires ThreadOf(run[j], t).e != ThreadOf(run[k], u).e
    ensures var e, f := ThreadOf(run[j], t).e, ThreadOf(run[k], u).e;
            && e < |run[i].entries| && f < |run[i].entries|
            && (run[i].entries[e].owns == run[i].entries[f].owns ==> run[i].entries[e].owns == "")
  {
    if j < k {
      LaterNameIsApart(run, i, j, k, t, u);
    } else if k < j {
      LaterNameIsApart(run, i, k, j, u, t);
    } else {
      assert Follows(run, j + 1);
      OneNamesAtATime(run[j], run[j + 1], t, u);
    }
  }

  // ---- The name a Wrap commits

  /** The points between taking a name and returning with it. */
  predicate Named(at: Point) {
    at == Record || at == Instruments || at == Install || at == Commit
  }

  /** name is what the request asks for: the caller's own, or a number on its base. */
  ghost predicate Answers(name: string, req: NameRequest) {
    match req
    case Chosen(chosen) => name == chosen
    case Default(base) => exists n: nat :: n >= 1 && name == Numbered(base, n)
  }

  ghost predicate NameOk(s: State, t: Tid) {
    var th := ThreadOf(s, t);
    th.Running? && Named(th.at) ==> th.op.Wrap? && Answers(th.name, th.op.req) && th.e < |s.entries| && s.entries[th.e].owns == th.name
  }

  /** While a thread holds its entry's mutex, nobody else touches what the entry owns,
      whose it is, or brings it back into the table. */
  lemma OthersLeaveItsEntry(s: State, ev: Event, t: Tid)
    requires Inv(s) && Enabled(s, ev) && HoldsLock(ThreadOf(s, t)) && !(ev.Step? && ev.t == t)
    ensures var th, s' := ThreadOf(s, t), Apply(s, ev);
            && ThreadOf(s', t) == th && th.e < |s.entries| <= |s'.entries|
            && s'.entries[th.e].owns == s.entries[th.e].owns && s'.entries[th.e].client == s.entries[th.e].client
            && (InTable(s', th.e) ==> InTable(s, th.e))
  {
    assert ThreadOk(s, t);
    if ev.Step? {
      assert ThreadOk(s, ev.t);
      if ThreadOf(s, ev.t).at == Load {
        OtherLoadLeavesItsEntry(s, t, ev.t, ev.outcome);
      } else {
        OtherStepLeavesItsEntry(s, t, ev.t, ev.outcome);
      }
    } else {
      EnvironmentLeavesItsEntry(s, ev, t);
    }
  }

  lemma EnvironmentLeavesItsEntry(s: State, ev: Event, t: Tid)
    requires Enabled(s, ev) && HoldsLock(ThreadOf(s, t)) && ThreadOk(s, t) && !ev.Step?
    ensures var th, s' := ThreadOf(s, t), Apply(s, ev);
            && ThreadOf(s', t) == th && th.e < |s.entries| == |s'.entries|
            && s'.entries[th.e].owns == s.entries[th.e].owns && s'.entries[th.e].client == s.entries[th.e].client
            && InTable(s', th.e) == InTable(s, th.e)
  {
  }

  lemma OtherLoadLeavesItsEntry(s: State, t: Tid, u: Tid, o: Outcome)
    requires CanStep(s, u, o) && ThreadOf(s, u).at == Load && HoldsLock(ThreadOf(s, t)) && u != t && ThreadOk(s, t)
    ensures var th, s' := ThreadOf(s, t), StepThread(s, u, o);
            && ThreadOf(s', t) == th && th.e < |s.entries| <= |s'.entries|
            && s'.entries[th.e] == s.entries[th.e] && (InTable(s', th.e) ==> InTable(s, th.e))
  {
  }

  lemma OtherStepLeavesItsEntry(s: State, t: Tid, u: Tid, o: Outcome)
    requires Inv(s) && CanStep(s, u, o) && ThreadOf(s, u).at != Load && HoldsLock(ThreadOf(s, t)) && u != t
    requires ThreadOk(s, t) && ThreadOk(s, u)
    ensures var th, s' := ThreadOf(s, t), StepOnEntry(s, u, o);
            && ThreadOf(s', t) == th && th.e < |s.entries| == |s'.entries|
            && s'.entries[th.e] == s.entries[th.e] && InTable(s', th.e) == InTable(s, th.e)
  {
    var f := ThreadOf(s, u).e;
    assert f != ThreadOf(s, t).e;
    StepTouchesOnly(s, u, o, f);
  }

  /** A thread that holds no mutex gets none by what others do. */
  lemma OthersLockNothingForIt(s: State, ev: Event, t: Tid)
    requires Enabled(s, ev) && !HoldsLock(ThreadOf(s, t)) && !(ev.Step? && ev.t == t)
    ensures !HoldsLock(ThreadOf(Apply(s, ev), t))
  {
  }

  lemma NextKeepsNameOk(s: State, s': State, t: Tid)
    requires Inv(s) && Next(s, s') && NameOk(s, t)
    ensures NameOk(s', t)
  {
    var ev :| Enabled(s, ev) && s' == Apply(s, ev);
    if ev.Step? && ev.t == t {
      OwnStepKeepsNameOk(s, t, ev.outcome);
    } else {
      OthersKeepNameOk(s, ev, t);
    }
  }

  lemma OthersKeepNameOk(s: State, ev: Event, t: Tid)
    requires Inv(s) && Enabled(s, ev) && NameOk(s, t) && !(ev.Step? && ev.t == t)
    ensures NameOk(Apply(s, ev), t)
  {
    if HoldsLock(ThreadOf(s, t)) {
      OthersLeaveItsEntry(s, ev, t);
    } else {
      OthersLockNothingForIt(s, ev, t);
    }
  }

  lemma OwnStepKeepsNameOk(s: State, t: Tid, o: Outcome)
    requires CanStep(s, t, o) && NameOk(s, t)
    ensures NameOk(StepThread(s, t, o), t)
  {
    var th := ThreadOf(s, t);
    if th.at == Name {
      NamingAnswers(s, t, o);
    } else if th.at != Load {
      KeepsItsName(s, t, o);
    }
  }

  /** Where a local step can come from and what it keeps of the thread. */
  lemma LocalStepKeepsRequest(th: Thread, x: Entry, t: Tid, o: Outcome, current: bool, live: bool)
    requires th.Running? && th.at != Load && th.at != Name
    ensures var th' := LocalStep(th, x, t, o, current, live).0;
            th'.Running? ==>
              && th'.op == th.op && th'.e == th.e && th'.name == th.name
              && (Named(th'.at) ==> Named(th.at))
              && (th'.at == Unlock ==> th.at == Canonical || th.at == Check || th.at == Delete)
  {
  }

  lemma StepIsLocal(s: State, t: Tid, o: Outcome)
    requires CanStep(s, t, o) && ThreadOf(s, t).at != Load
    ensures var th := ThreadOf(s, t);
            var x := s.entries[th.e];
            ThreadOf(StepOnEntry(s, t, o), t) == LocalStep(th, x, t, o, Current(s, th), Live(s, x.client)).0
  {
  }

  lemma KeepsItsName(s: State, t: Tid, o: Outcome)
    requires CanStep(s, t, o) && NameOk(s, t) && ThreadOf(s, t).at != Load && ThreadOf(s, t).at != Name
    ensures NameOk(StepOnEntry(s, t, o), t)
  {
    var th := ThreadOf(s, t);
    var s' := StepOnEntry(s, t, o);
    StepIsLocal(s, t, o);
    LocalStepKeepsRequest(th, s.entries[th.e], t, o, Current(s, th), Live(s, s.entries[th.e].client));
    if Named(th.at) {
      OtherStepsMoveNoHolds(s, t, o, th.e);
      StepPutsOneEntry(s, t, o, th.e);
      KeepsName(th, ThreadOf(s', t), s, s', t);
    }
  }

  lemma KeepsName(th: Thread, th': Thread, s: State, s': State, t: Tid)
    requires th == ThreadOf(s, t) && th' == ThreadOf(s', t) && NameOk(s, t)
    requires th.Running? && Named(th.at) && |s'.entries| == |s.entries| && s'.entries[th.e].owns == s.entries[th.e].owns
    requires th'.Running? ==> th'.op == th.op && th'.e == th.e && th'.name == th.name
    ensures NameOk(s', t)
  {
  }

  lemma NamingAnswers(s: State, t: Tid, o: Outcome)
    requires CanStep(s, t, o) && ThreadOf(s, t).at == Name
    ensures NameOk(StepThread(s, t, o), t)
  {
    var th := ThreadOf(s, t);
    if th.op.req.Default? {
      assert Answers(Numbered(th.op.req.base, o.n), th.op.req);
    }
  }

  lemma {:induction false} NamesAnswerTheirRequests(run: seq<State>, i: nat, t: Tid)
    requires IsRun(run) && i < |run|
    ensures NameOk(run[i], t)
  {
    if i > 0 {
      NamesAnswerTheirRequests(run, i - 1, t);
      RunKeepsInv(run, i - 1);
      assert Follows(run, i);
      NextKeepsNameOk(run[i - 1], run[i], t);
    }
  }

  /** A Wrap about to commit has recorded exactly the caller's name, or a number on the
      default base; that is the name its hooks and its metric callback report. */
  lemma CommittedNameIsTheRequested(run: seq<State>, i: nat, t: Tid)
    requires IsRun(run) && i < |run| && ThreadOf(run[i], t).Running? && ThreadOf(run[i], t).at == Commit
    ensures var th := ThreadOf(run[i], t);
            && th.op.Wrap? && th.e < |run[i].entries|
            && match th.op.req
               case Chosen(name) => run[i].entries[th.e].poolName == name
               case Default(base) => exists n: nat :: n >= 1 && run[i].entries[th.e].poolName == base + "-" + Decimal(n)
  {
    NamesAnswerTheirRequests(run, i, t);
    RunKeepsInv(run, i);
    var th := ThreadOf(run[i], t);
    assert ThreadOk(run[i], t) && EntryOk(run[i], th.e);
    if th.op.req.Default? {
      var n: nat :| n >= 1 && th.name == Numbered(th.op.req.base, n);
      assert run[i].entries[th.e].poolName == th.op.req.base + "-" + Decimal(n);
    }
  }

  // ---- What Unwrap and the cleanup leave

  /** The thread is about to unlock an entry it has torn down: an Unwrap or cleanup its own
      client's, a Wrap that gives up the one it failed on. */
  predicate LeavesForGood(s: State, t: Tid) {
    var th := ThreadOf(s, t);
    && th.Running? && th.at == Unlock && th.e < |s.entries|
    && if th.op.Wrap? then !th.again else s.entries[th.e].client == th.op.c
  }

  predicate LeavesOut(s: State, t: Tid) {
    LeavesForGood(s, t) ==> !InTable(s, ThreadOf(s, t).e)
  }

  lemma NextKeepsLeavesOut(s: State, s': State, t: Tid)
    requires Inv(s) && Next(s, s') && LeavesOut(s, t)
    ensures LeavesOut(s', t)
  {
    var ev :| Enabled(s, ev) && s' == Apply(s, ev);
    if ev.Step? && ev.t == t {
      OwnStepKeepsLeavesOut(s, t, ev.outcome);
    } else {
      OthersKeepLeavesOut(s, ev, t);
    }
  }

  lemma OthersKeepLeavesOut(s: State, ev: Event, t: Tid)
    requires Inv(s) && Enabled(s, ev) && LeavesOut(s, t) && !(ev.Step? && ev.t == t)
    ensures LeavesOut(Apply(s, ev), t)
  {
    if HoldsLock(ThreadOf(s, t)) {
      OthersLeaveItsEntry(s, ev, t);
    } else {
      OthersLockNothingForIt(s, ev, t);
    }
  }

  lemma OwnStepKeepsLeavesOut(s: State, t: Tid, o: Outcome)
    requires Inv(s) && CanStep(s, t, o) && LeavesOut(s, t)
    ensures LeavesOut(StepThread(s, t, o), t)
  {
    var th := ThreadOf(s, t);
    assert ThreadOk(s, t);
    if th.at == Check {
      CheckLeavesOut(s, t, o);
    } else if th.at == Delete {
      DeleteLeavesOut(s, t, o);
    } else if th.at != Load && th.at != Name {
      StepIsLocal(s, t, o);
      LocalStepKeepsRequest(th, s.entries[th.e], t, o, Current(s, th), Live(s, s.entries[th.e].client));
    }
  }

  lemma CheckLeavesOut(s: State, t: Tid, o: Outcome)
    requires CanStep(s, t, o) && ThreadOk(s, t) && ThreadOf(s, t).at == Check
    ensures LeavesOut(StepThread(s, t, o), t)
  {
  }

  lemma DeleteLeavesOut(s: State, t: Tid, o: Outcome)
    requires CanStep(s, t, o) && ThreadOk(s, t) && ThreadOf(s, t).at == Delete
    ensures LeavesOut(StepThread(s, t, o), t)
  {
  }

  lemma {:induction false} RunKeepsLeavesOut(run: seq<State>, i: nat, t: Tid)
    requires IsRun(run) && i < |run|
    ensures LeavesOut(run[i], t)
  {
    if i > 0 {
      RunKeepsLeavesOut(run, i - 1, t);
      RunKeepsInv(run, i - 1);
      assert Follows(run, i);
      NextKeepsLeavesOut(run[i - 1], run[i], t);
    }
  }

  /** When an Unwrap or a cleanup unlocks its client's entry, or a failed Wrap the entry it
      failed on, that entry is off, out of the table and holds no name. */
  lemma TornDownEntriesAreOff(run: seq<State>, i: nat, t: Tid)
    requires IsRun(run) && i < |run| && LeavesForGood(run[i], t)
    ensures var s, x := run[i], run[i].entries[ThreadOf(run[i], t).e];
            !InTable(s, ThreadOf(s, t).e) && !Emits(x) && !x.registered && !x.armed && x.poolName == "" == x.owns
  {
    RunKeepsInv(run, i);
    RunKeepsLeavesOut(run, i, t);
    assert ThreadOk(run[i], t) && EntryOk(run[i], ThreadOf(run[i], t).e);
  }

  /** An Unwrap that finds no entry has nothing left to turn off. */
  lemma NoEntryMeansSilent(run: seq<State>, i: nat, t: Tid)
    requires IsRun(run) && i < |run| && ThreadOf(run[i], t).Running? && ThreadOf(run[i], t).at == Load
    requires ThreadOf(run[i], t).key !in run[i].table
    ensures forall e: EntryId :: e < |run[i].entries| && run[i].entries[e].client == ThreadOf(run[i], t).op.c ==>
              !Emits(run[i].entries[e])
  {
    var s, th := run[i], ThreadOf(run[i], t);
    RunKeepsInv(run, i);
    assert ThreadOk(s, t);
    forall e: EntryId | e < |s.entries| && s.entries[e].client == th.op.c
      ensures !Emits(s.entries[e])
    {
      assert EntryOk(s, e);
    }
  }

  // ---- How operations end

  predicate BeforeName(at: Point) {
    at == Load || at == Lock || at == Canonical || at == Identity || at == Done || at == Name
  }

  /** A Wrap tears its own entry down and gives up only after it has taken a name. */
  predicate GivesUpLate(th: Thread) {
    th.Running? && th.op.Wrap? ==>
      && (BeforeName(th.at) || th.again ==> th.name == "")
      && (Named(th.at) ==> th.name != "")
      && ((TearingDown(th.at) || th.at == Unlock) && !th.again ==> th.name != "")
  }

  lemma NamingGivesUpLate(th: Thread, x: Entry, t: Tid, o: Outcome, current: bool, live: bool)
    requires th.Running? && th.at == Name && !th.again && th.op.Wrap?
    requires if th.op.req.Default? then o.Number? else th.op.req.name != ""
    ensures GivesUpLate(LocalStep(th, x, t, o, current, live).0)
  {
    if th.op.req.Default? {
      assert |Numbered(th.op.req.base, o.n)| > 0;
    }
  }

  lemma OtherStepsGiveUpLate(th: Thread, x: Entry, t: Tid, o: Outcome, current: bool, live: bool)
    requires th.Running? && th.op.Wrap? && th.at != Check && th.at != Name && (Committing(th.at) ==> !th.again)
    requires GivesUpLate(th)
    ensures GivesUpLate(LocalStep(th, x, t, o, current, live).0)
  {
  }

  lemma EventKeepsGivesUpLate(s: State, ev: Event, t: Tid)
    requires Inv(s) && Enabled(s, ev) && GivesUpLate(ThreadOf(s, t))
    ensures GivesUpLate(ThreadOf(Apply(s, ev), t))
  {
    if ev.Step? && ev.t == t && ThreadOf(s, t).at != Load {
      var th := ThreadOf(s, t);
      assert ThreadOk(s, t);
      StepIsLocal(s, t, ev.outcome);
      if th.at == Name {
        NamingGivesUpLate(th, s.entries[th.e], t, ev.outcome, Current(s, th), Live(s, s.entries[th.e].client));
      } else if th.op.Wrap? {
        OtherStepsGiveUpLate(th, s.entries[th.e], t, ev.outcome, Current(s, th), Live(s, s.entries[th.e].client));
      } else {
        LocalStepKeepsRequest(th, s.entries[th.e], t, ev.outcome, Current(s, th), Live(s, s.entries[th.e].client));
      }
    }
  }

  lemma {:induction false} RunKeepsGivesUpLate(run: seq<State>, i: nat, t: Tid)
    requires IsRun(run) && i < |run|
    ensures GivesUpLate(ThreadOf(run[i], t))
  {
    if i > 0 {
      RunKeepsGivesUpLate(run, i - 1, t);
      RunKeepsInv(run, i - 1);
      assert Follows(run, i);
      var ev :| Enabled(run[i - 1], ev) && run[i] == Apply(run[i - 1], ev);
      EventKeepsGivesUpLate(run[i - 1], ev, t);
    }
  }

  /** A Wrap ends either by returning from its client's live generation, or by giving up on an
      entry it had already named and has torn down. */
  lemma WrapEndsWithAGenerationOrFails(run: seq<State>, i: nat, t: Tid)
    requires IsRun(run) && i + 1 < |run| && ThreadOf(run[i], t).Running? && ThreadOf(run[i], t).op.Wrap?
    requires ThreadOf(run[i + 1], t).Idle?
    ensures var s, th := run[i], ThreadOf(run[i], t);
            && th.e < |s.entries|
            && if th.at == Return then Emits(s.entries[th.e]) && s.entries[th.e].client == th.op.c && InTable(s, th.e)
               else th.name != "" && !InTable(s, th.e) && !Emits(s.entries[th.e])
  {
    var th := ThreadOf(run[i], t);
    assert Follows(run, i + 1);
    EndsAt(run[i], run[i + 1], t);
    RunKeepsGivesUpLate(run, i, t);
    if th.at == Return {
      WrapLeavesAGeneration(run, i, t);
    } else {
      TornDownEntriesAreOff(run, i, t);
    }
  }

  lemma LocalStepEnds(th: Thread, x: Entry, t: Tid, o: Outcome, current: bool, live: bool)
    requires th.Running? && (th.at == Name ==> th.op.Wrap? && (th.op.req.Default? ==> o.Number?))
    requires LocalStep(th, x, t, o, current, live).0.Idle?
    ensures th.at == Return || (th.at == Unlock && !th.again)
  {
  }

  /** A step that ends an operation has no choices. */
  lemma OnlyItsOwnStepEnds(s: State, s': State, t: Tid)
    requires Next(s, s') && ThreadOf(s, t).Running? && ThreadOf(s', t).Idle?
    ensures CanStep(s, t, Ok) && s' == StepThread(s, t, Ok)
  {
    var ev :| Enabled(s, ev) && s' == Apply(s, ev);
    assert ev.Step? && ev.t == t;
    EndingStepHasNoChoice(s, t, ev.outcome);
  }

  lemma EndingStepHasNoChoice(s: State, t: Tid, o: Outcome)
    requires CanStep(s, t, o) && ThreadOf(StepThread(s, t, o), t).Idle?
    ensures CanStep(s, t, Ok) && StepThread(s, t, Ok) == StepThread(s, t, o)
  {
    var th := ThreadOf(s, t);
    if th.at != Load {
      StepIsLocal(s, t, o);
      LocalStepEnds(th, s.entries[th.e], t, o, Current(s, th), Live(s, s.entries[th.e].client));
    }
  }

  lemma EndsAt(s: State, s': State, t: Tid)
    requires Next(s, s') && ThreadOf(s, t).Running? && ThreadOf(s, t).op.Wrap? && ThreadOf(s', t).Idle?
    ensures ThreadOf(s, t).at == Return || LeavesForGood(s, t)
  {
    OnlyItsOwnStepEnds(s, s', t);
    WrapStepEndsAt(s, t, Ok);
  }

  lemma WrapStepEndsAt(s: State, t: Tid, o: Outcome)
    requires CanStep(s, t, o) && ThreadOf(s, t).op.Wrap? && ThreadOf(StepThread(s, t, o), t).Idle?
    ensures ThreadOf(s, t).at == Return || LeavesForGood(s, t)
  {
    var th := ThreadOf(s, t);
    if th.at != Load {
      StepIsLocal(s, t, o);
      LocalStepEnds(th, s.entries[th.e], t, o, Current(s, th), Live(s, s.entries[th.e].client));
    }
  }
}

/** What Wrap, Unwrap and the cleanup guarantee in every state of every run. */
module RedisWrapGuarantees {
  import opened Wrappers
  import opened PoolNames
  import opened RedisWrap
  import opened RedisWrapInvariant

  /** The hooks installed with this entry's flag still emit. */
  predicate Emits(x: Entry) {
    x.installed && !x.disabled
  }

  /** A client's commands go through at most one emitting generation of hooks. */
  lemma AtMostOneEmittingGeneration(run: seq<State>, i: nat, e: EntryId, f: EntryId)
    requires IsRun(run) && i < |run|
    requires e < |run[i].entries| && f < |run[i].entries|
    requires Emits(run[i].entries[e]) && Emits(run[i].entries[f])
    requires run[i].entries[e].client == run[i].entries[f].client
    ensures e == f && InTable(run[i], e)
  {
    RunKeepsInv(run, i);
    EmittingIsInTable(run[i], e);
    EmittingIsInTable(run[i], f);
  }

  lemma EmittingIsInTable(s: State, e: EntryId)
    requires Inv(s) && e < |s.entries| && Emits(s.entries[e])
    ensures InTable(s, e) && s.entries[e].client < |s.clients|
    ensures s.entries[e].key == s.clients[s.entries[e].client].addr
  {
    assert EntryOk(s, e);
  }

  /** When Wrap is about to return without a pre-commit error, the client has an
      emitting generation: the table entry, fully committed and named. */
  lemma WrapLeavesAGeneration(run: seq<State>, i: nat, t: Tid)
    requires IsRun(run) && i < |run|
    requires ThreadOf(run[i], t).Running? && ThreadOf(run[i], t).at == Return
    ensures var th := ThreadOf(run[i], t);
            && th.e < |run[i].entries| && InTable(run[i], th.e)
            && var x := run[i].entries[th.e];
               Emits(x) && x.client == th.op.c && x.done && x.registered && x.poolName != ""
  {
    RunKeepsInv(run, i);
    assert ThreadOk(run[i], t);
    assert EntryOk(run[i], ThreadOf(run[i], t).e);
  }

  /** A free mutex guards an entry that is wholly on (in the table) or wholly off (out of it). */
  lemma UnlockedEntries(run: seq<State>, i: nat, e: EntryId)
    requires IsRun(run) && i < |run|
    requires e < |run[i].entries| && run[i].entries[e].lock.None?
    ensures var x := run[i].entries[e];
            if InTable(run[i], e) then !x.disabled && (x.done <==> x.poolName != "") && (x.done <==> x.installed)
            else x.disabled && !x.registered && x.poolName == "" && !x.armed
  {
    RunKeepsInv(run, i);
    assert EntryOk(run[i], e);
  }

  /** `held` counts the entries owning each name; what an unlocked entry owns is
      what it records, and a release always finds a hold to give back. */
  lemma HeldCountsOwners(run: seq<State>, i: nat, name: string)
    requires IsRun(run) && i < |run| && name != ""
    ensures HoldsOf(run[i].held, name) == Owners(run[i].entries, name)
    ensures forall e :: 0 <= e < |run[i].entries| && run[i].entries[e].lock.None? ==>
              run[i].entries[e].owns == run[i].entries[e].poolName
    ensures forall t: Tid :: ReleasesNow(run[i], t, name) ==> HoldsOf(run[i].held, name) > 0
  {
    var s := run[i];
    RunKeepsInv(run, i);
    forall e | 0 <= e < |s.entries| && s.entries[e].lock.None?
      ensures s.entries[e].owns == s.entries[e].poolName
    {
      assert EntryOk(s, e);
    }
    forall t: Tid | ReleasesNow(s, t, name)
      ensures HoldsOf(s.held, name) > 0
    {
      assert ThreadOk(s, t) && EntryOk(s, ThreadOf(s, t).e);
      OwnerIsCounted(s.entries, ThreadOf(s, t).e, name);
    }
  }

  predicate ReleasesNow(s: State, t: Tid, name: string) {
    var th := ThreadOf(s, t);
    th.Running? && th.at == Release && th.e < |s.entries| && s.entries[th.e].poolName == name
  }

  /** Only the client's own Unwrap silences a live client's hooks: no cleanup and no
      stale-entry teardown ever does, whatever addresses are reused. */
  lemma OnlyUnwrapSilencesALiveClient(run: seq<State>, i: nat, e: EntryId)
    requires IsRun(run) && i + 1 < |run| && e < |run[i].entries| == |run[i + 1].entries|
    requires Emits(run[i].entries[e]) && !Emits(run[i + 1].entries[e])
    requires Live(run[i], run[i].entries[e].client)
    ensures exists t: Tid :: ThreadOf(run[i], t).Running? && ThreadOf(run[i], t).op == Unwrap(run[i].entries[e].client)
              && ThreadOf(run[i], t).at == Disable && ThreadOf(run[i], t).e == e
  {
    RunKeepsInv(run, i);
    assert Follows(run, i + 1);
    var ev :| Enabled(run[i], ev) && run[i + 1] == Apply(run[i], ev);
    SilencingStep(run[i], ev, e);
  }

  lemma SilencingStep(s: State, ev: Event, e: EntryId)
    requires Inv(s) && Enabled(s, ev) && e < |s.entries| == |Apply(s, ev).entries|
    requires Emits(s.entries[e]) && !Emits(Apply(s, ev).entries[e]) && Live(s, s.entries[e].client)
    ensures ev.Step? && ThreadOf(s, ev.t).Running? && ThreadOf(s, ev.t).at == Disable && ThreadOf(s, ev.t).e == e
    ensures ThreadOf(s, ev.t).op == Unwrap(s.entries[e].client)
  {
    assert ev.Step?;
    var th := ThreadOf(s, ev.t);
    assert ThreadOk(s, ev.t) && EntryOk(s, e);
    assert th.at != Load && th.e == e && th.at == Disable;
  }

  /** The table entry of a collected client is still going to be cleaned up. */
  lemma CollectedClientIsCleanedUp(run: seq<State>, i: nat, e: EntryId)
    requires IsRun(run) && i < |run| && e < |run[i].entries| && InTable(run[i], e)
    requires run[i].entries[e].lock.None? && !Live(run[i], run[i].entries[e].client)
    ensures var x := run[i].entries[e];
            x.armed || (x.cleaner.Some? && Cleans(ThreadOf(run[i], x.cleaner.value), x, e))
  {
    RunKeepsInv(run, i);
    var s, x := run[i], run[i].entries[e];
    assert EntryOk(s, e) && ThreadOk(s, x.creator);
  }

  /** How many entries record name as theirs. */
  function Recorded(entries: seq<Entry>, name: string): nat {
    if entries == [] then 0
    else Recorded(entries[..|entries| - 1], name) + (if entries[|entries| - 1].poolName == name then 1 else 0)
  }

  lemma {:induction false} RecordedAreOwners(entries: seq<Entry>, name: string)
    requires forall e :: 0 <= e < |entries| ==> entries[e].owns == entries[e].poolName
    ensures Recorded(entries, name) == Owners(entries, name)
  {
    if entries != [] {
      RecordedAreOwners(entries[..|entries| - 1], name);
    }
  }

  /** Once no operation is running, every table entry is a fully committed wrapper with its
      cleanup pending, everything else is off and holds nothing, and the allocator holds
      exactly the names the entries record: a failed Wrap leaves no state behind. */
  lemma QuietStatesAreClean(run: seq<State>, i: nat)
    requires IsRun(run) && i < |run|
    requires forall t: Tid :: ThreadOf(run[i], t).Idle?
    ensures forall e :: 0 <= e < |run[i].entries| ==>
              var x := run[i].entries[e];
              if InTable(run[i], e)
              then x.done && Emits(x) && x.registered && x.armed && x.poolName != ""
              else x.disabled && !x.registered && !x.armed && x.poolName == ""
    ensures forall name :: name != "" ==> HoldsOf(run[i].held, name) == Recorded(run[i].entries, name)
  {
    var s := run[i];
    RunKeepsInv(run, i);
    forall e | 0 <= e < |s.entries|
      ensures s.entries[e].lock.None? && s.entries[e].owns == s.entries[e].poolName && EntryOk(s, e)
    {
      assert EntryOk(s, e);
    }
    forall name | name != ""
      ensures HoldsOf(s.held, name) == Recorded(s.entries, name)
    {
      RecordedAreOwners(s.entries, name);
    }
  }
}

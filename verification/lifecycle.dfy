/**
 * Shutdown and ForceFlush: the deadline shares handed to components, and the two calls racing
 * each other (o11y.go:185-210, 239-254, 298-308, 335-345).
 */
module Lifecycle {
  import opened Wrappers

  /** Clock readings and durations, in nanoseconds. */
  type Time = int

  // ---- Shares of a deadline

  /** Integer division rounding toward zero. */
  function TruncatedDiv(a: int, b: int): int
    requires b > 0
  {
    if a >= 0 then a / b else -((-a) / b)
  }

  function Share(deadline: Time, now: Time, remaining: int): Time
    requires remaining > 0
  {
    TruncatedDiv(deadline - now, remaining)
  }

  /** The deadline of the context one of `remaining` components runs under. The clock is read for
      the share at `now` and again, at `later`, to start its timeout; whatever both say, the result
      has a deadline exactly when the caller's context has one, and never a later one. */
  function ShutdownBudget(ctx: Option<Time>, now: Time, later: Time, remaining: int): (r: Option<Time>)
    ensures r.Some? == ctx.Some?
    ensures ctx.Some? ==> r.value <= ctx.value
  {
    if ctx.None? || remaining <= 1 then ctx
    else
      var share := Share(ctx.value, now, remaining);
      if share <= 0 then ctx
      else if later + share < ctx.value then Some(later + share) else ctx
  }

  /** Components run one after the other. The clock is read at `starts[i]` for the share of the one
      that divides what is left with `components - i - 1` others, and again at `timers[i]` to start its
      timeout; the last entry of `starts` is when the last one returned. Each returns before the
      context it was given ends. */
  ghost predicate Punctual(deadline: Time, components: nat, starts: seq<Time>, timers: seq<Time>) {
    && |starts| == components + 1 && |timers| == components
    && forall i :: 0 <= i < components ==>
         && starts[i] <= timers[i] && starts[i] <= starts[i + 1]
         && starts[i + 1] <= ShutdownBudget(Some(deadline), starts[i], timers[i], components - i).value
  }

  /** Each also ends within its share of the first reading, unless that was rounded down to nothing
      and it had all the time left. */
  ghost predicate WithinShares(deadline: Time, components: nat, starts: seq<Time>) {
    && |starts| == components + 1
    && forall i :: 0 <= i < components ==>
         var share := Share(deadline, starts[i], components - i);
         share > 0 ==> starts[i + 1] <= starts[i] + share
  }

  lemma DivisionBounds(a: int, b: int)
    requires a >= 0 && b > 0
    ensures a / b >= 0 && (a / b) * b <= a < (a / b) * b + b
  {
  }

  lemma AtLeastQuotient(q: int, a: int, b: int)
    requires b > 0 && q * b <= a
    ensures q <= a / b
  {
    var quotient := a / b;
    assert a < (quotient + 1) * b;
    if q > quotient {
      LargerFactor(q, quotient + 1, b);
    }
  }

  lemma LargerFactor(x: int, y: int, b: int)
    requires b > 0 && x >= y
    ensures x * b >= y * b
  {
    assert (x - y) * b >= 0;
  }

  /** The derived deadline, exactly: the caller's own, or one before it whose distance from the second
      reading is the even share of the time left at the first, rounded down. It is the caller's own
      when less than a nanosecond each was left, or when the share reaches it. */
  lemma DerivedDeadline(deadline: Time, now: Time, later: Time, remaining: int)
    requires remaining > 1
    ensures var r := ShutdownBudget(Some(deadline), now, later, remaining);
            && r.Some?
            && (r.value == deadline <==> deadline - now < remaining || remaining * (deadline - later) <= deadline - now)
            && (r.value != deadline ==>
                  && r.value < deadline
                  && remaining * (r.value - later) <= deadline - now < remaining * (r.value - later) + remaining)
  {
    var left := deadline - now;
    if left >= remaining {
      DivisionBounds(left, remaining);
      AtLeastQuotient(1, left, remaining);
      if remaining * (deadline - later) <= left {
        AtLeastQuotient(deadline - later, left, remaining);
      } else {
        LargerShare(deadline - later, left, remaining);
      }
    } else if left >= 0 {
      DivisionBounds(left, remaining);
      SmallShare(left, remaining);
    }
  }

  lemma SmallShare(a: int, b: int)
    requires 0 <= a < b
    ensures a / b == 0
  {
  }

  lemma LargerShare(q: int, a: int, b: int)
    requires a >= 0 && b > 0 && b * q > a
    ensures a / b < q
  {
    DivisionBounds(a, b);
    if a / b >= q {
      LargerFactor(a / b, q, b);
    }
  }

  /** Before the deadline, whoever runs next has at least its even share of what is left. */
  lemma EvenShareAtLeast(deadline: Time, now: Time, later: Time, remaining: int)
    requires remaining > 0 && now <= deadline && now <= later
    ensures now + (deadline - now) / remaining <= ShutdownBudget(Some(deadline), now, later, remaining).value
  {
    DivisionBounds(deadline - now, remaining);
    AtMostWhole(deadline - now, remaining);
  }

  lemma AtMostWhole(a: int, b: int)
    requires a >= 0 && b > 0
    ensures a / b <= a
  {
    if a / b > a {
      LargerFactor(a / b, a + 1, b);
      LargerFactor(b, 1, a + 1);
    }
  }

  /** What a component leaves to each of the others when it uses up a time of `over` beyond its share. */
  lemma ShareAfterOverrun(deadline: Time, start: Time, next: Time, remaining: int, over: Time)
    requires remaining > 1 && start <= next <= deadline && over >= 0
    requires next <= start + Share(deadline, start, remaining) + over
    ensures Share(deadline, next, remaining - 1) >= Share(deadline, start, remaining) - over
  {
    var share := Share(deadline, start, remaining);
    DivisionBounds(deadline - start, remaining);
    DivisionBounds(deadline - next, remaining - 1);
    if share > over {
      OverrunOfTheRest(share, deadline - start, over, remaining);
      AtLeastQuotient(share - over, deadline - next, remaining - 1);
    }
  }

  lemma OverrunOfTheRest(share: int, a: int, over: int, remaining: int)
    requires remaining > 1 && share >= over >= 0 && share * remaining <= a
    ensures (share - over) * (remaining - 1) <= a - share - over
  {
    assert share * (remaining - 1) == share * remaining - share;
    assert over * (remaining - 1) >= over;
    assert (share - over) * (remaining - 1) == share * (remaining - 1) - over * (remaining - 1);
  }

  /** For any two readings: a punctual component ends by the overall deadline, and each of the rest
      has a share smaller by at most the time that passed between the two readings. A component
      that ends within its share of the first reading leaves shares at least as large. */
  lemma NextShare(deadline: Time, start: Time, later: Time, next: Time, remaining: int)
    requires remaining > 1 && start <= deadline && start <= later && start <= next
    requires next <= ShutdownBudget(Some(deadline), start, later, remaining).value
    ensures next <= deadline
    ensures Share(deadline, next, remaining - 1) >= Share(deadline, start, remaining) - (later - start)
    ensures next <= start + Share(deadline, start, remaining) || Share(deadline, start, remaining) == 0 ==>
              Share(deadline, next, remaining - 1) >= Share(deadline, start, remaining)
  {
    DivisionBounds(deadline - start, remaining);
    DivisionBounds(deadline - next, remaining - 1);
    if Share(deadline, start, remaining) > 0 {
      ShareAfterOverrun(deadline, start, next, remaining, later - start);
      if next <= start + Share(deadline, start, remaining) {
        ShareAfterOverrun(deadline, start, next, remaining, 0);
      }
    }
  }

  lemma {:induction false} StartsBeforeDeadline(deadline: Time, components: nat, starts: seq<Time>, timers: seq<Time>, i: nat)
    requires Punctual(deadline, components, starts, timers) && starts[0] <= deadline && i <= components
    ensures starts[i] <= deadline
  {
    if i > 0 {
      assert starts[i - 1 + 1] <= ShutdownBudget(Some(deadline), starts[i - 1], timers[i - 1], components - (i - 1)).value;
    }
  }

  lemma {:induction false} SharesRise(deadline: Time, components: nat, starts: seq<Time>, timers: seq<Time>, i: nat, j: nat)
    requires Punctual(deadline, components, starts, timers) && WithinShares(deadline, components, starts)
    requires starts[0] <= deadline && i <= j < components
    ensures Share(deadline, starts[i], components - i) <= Share(deadline, starts[j], components - j)
  {
    if i < j {
      SharesRise(deadline, components, starts, timers, i, j - 1);
      StartsBeforeDeadline(deadline, components, starts, timers, j - 1);
      DivisionBounds(deadline - starts[j - 1], components - (j - 1));
      assert starts[j - 1 + 1] == starts[j];
      NextShare(deadline, starts[j - 1], timers[j - 1], starts[j], components - (j - 1));
    }
  }

  /** Whatever time passes between the readings, components that return before their own contexts
      end all end by the overall deadline; when each also ends within its share the shares only grow,
      so each context lasts at least the even split of the whole time. */
  lemma PunctualComponentsMeetTheDeadline(deadline: Time, components: nat, starts: seq<Time>, timers: seq<Time>)
    requires Punctual(deadline, components, starts, timers) && starts[0] <= deadline
    ensures forall i :: 0 <= i <= components ==> starts[i] <= deadline
    ensures WithinShares(deadline, components, starts) ==>
              forall i, j :: 0 <= i <= j < components ==>
                0 <= Share(deadline, starts[i], components - i) <= Share(deadline, starts[j], components - j)
    ensures WithinShares(deadline, components, starts) ==>
              forall i :: 0 <= i < components ==>
                starts[i] + (deadline - starts[0]) / components
                <= ShutdownBudget(Some(deadline), starts[i], timers[i], components - i).value
  {
    forall i | 0 <= i <= components ensures starts[i] <= deadline {
      StartsBeforeDeadline(deadline, components, starts, timers, i);
    }
    if WithinShares(deadline, components, starts) {
      forall i, j | 0 <= i <= j < components
        ensures 0 <= Share(deadline, starts[i], components - i) <= Share(deadline, starts[j], components - j)
      {
        SharesRise(deadline, components, starts, timers, i, j);
        DivisionBounds(deadline - starts[i], components - i);
      }
      forall i | 0 <= i < components
        ensures starts[i] + (deadline - starts[0]) / components
             <= ShutdownBudget(Some(deadline), starts[i], timers[i], components - i).value
      {
        SharesRise(deadline, components, starts, timers, 0, i);
        StartsBeforeDeadline(deadline, components, starts, timers, i);
        EvenShareAtLeast(deadline, starts[i], timers[i], components - i);
      }
    }
  }

  // ---- The race

  type Caller = int

  /** The call that won sync.Once: it marks the shutdown as started, waits for flushes when there
      are any and it has a deadline, and runs the closers. */
  datatype Runner =
    | NotCalled
    | Called
    | Waiting(until: Time)
    | BetweenClosers(next: nat)
    | InCloser(i: nat)
    | Finished

  /** A closer that was started, and the deadline it was given. */
  datatype Started = Started(closer: nat, deadline: Option<Time>)

  datatype State = State(
    now: Time,
    shutdownStarted: bool,
    flushesRunning: int,
    waitGroup: int,
    working: set<Caller>,     // ForceFlush calls between the two locked sections
    leaving: set<Caller>,     // counted out, with Done still to call
    gone: set<Caller>,        // returned, or refused
    runner: Runner,
    blocked: set<Caller>,     // other Shutdown calls, held by sync.Once
    released: set<Caller>,    // Shutdown calls that returned
    sawRunning: bool,
    cancelled: bool,          // the caller cancelled the context of Shutdown
    started: seq<Started>)

  /** The SDK's closers and the deadline of the Shutdown call that runs them. */
  datatype Setup = Setup(closers: nat, deadline: Option<Time>)

  datatype Action =
    | Tick(to: Time)
    | Cancel
    | FlushEnters(c: Caller)
    | FlushCountsOut(c: Caller)
    | FlushDone(c: Caller)
    | ShutdownCalled(c: Caller)
    | MarkStarted(later: Time)
    | WaitEnds
    | CloserStarts(later: Time)
    | CloserReturns
    | OnceDone
    | ShutdownReturns(c: Caller)

  predicate Initial(s: State) {
    && !s.shutdownStarted && s.flushesRunning == s.waitGroup == 0
    && s.working == s.leaving == s.gone == s.blocked == s.released == {}
    && s.runner == NotCalled && !s.sawRunning && !s.cancelled && s.started == []
  }

  predicate NewFlush(s: State, c: Caller) {
    c !in s.working && c !in s.leaving && c !in s.gone
  }

  predicate Enabled(u: Setup, s: State, a: Action) {
    match a
    case Tick(to) => s.now <= to
    case Cancel => true
    case FlushEnters(c) => NewFlush(s, c)
    case FlushCountsOut(c) => c in s.working
    case FlushDone(c) => c in s.leaving
    case ShutdownCalled(c) => c !in s.blocked && c !in s.released
    case MarkStarted(later) => s.runner.Called? && s.now <= later
    case WaitEnds => s.runner.Waiting? && (s.waitGroup == 0 || s.runner.until <= s.now || s.cancelled)
    case CloserStarts(later) => s.runner.BetweenClosers? && s.runner.next < u.closers && s.now <= later
    case CloserReturns => s.runner.InCloser?
    case OnceDone => s.runner.BetweenClosers? && s.runner.next >= u.closers
    case ShutdownReturns(c) => c in s.blocked && s.runner.Finished?
  }

  /** The locked section of Shutdown, and whether it goes on to wait. */
  function Marked(u: Setup, s: State, later: Time): State {
    var wait := u.deadline.Some? && s.flushesRunning > 0;
    s.(shutdownStarted := true, sawRunning := s.flushesRunning > 0,
       runner := if wait then Waiting(ShutdownBudget(u.deadline, s.now, later, u.closers + 1).value) else BetweenClosers(0))
  }

  function Apply(u: Setup, s: State, a: Action): State
    requires Enabled(u, s, a)
  {
    match a
    case Tick(to) => s.(now := to)
    case Cancel => s.(cancelled := true)
    case FlushEnters(c) =>
      if s.shutdownStarted then s.(gone := s.gone + {c})
      else s.(flushesRunning := s.flushesRunning + 1, waitGroup := s.waitGroup + 1, working := s.working + {c})
    case FlushCountsOut(c) =>
      s.(flushesRunning := s.flushesRunning - 1, working := s.working - {c}, leaving := s.leaving + {c})
    case FlushDone(c) => s.(waitGroup := s.waitGroup - 1, leaving := s.leaving - {c}, gone := s.gone + {c})
    case ShutdownCalled(c) => s.(blocked := s.blocked + {c}, runner := if s.runner.NotCalled? then Called else s.runner)
    case MarkStarted(later) => Marked(u, s, later)
    case WaitEnds => s.(runner := BetweenClosers(0))
    case CloserStarts(later) =>
      var i := s.runner.next;
      s.(started := s.started + [Started(i, ShutdownBudget(u.deadline, s.now, later, u.closers - i))],
         runner := InCloser(i))
    case CloserReturns => s.(runner := BetweenClosers(s.runner.i + 1))
    case OnceDone => s.(runner := Finished)
    case ShutdownReturns(c) => s.(blocked := s.blocked - {c}, released := s.released + {c})
  }

  predicate Runs(u: Setup, s: State, acts: seq<Action>)
    decreases |acts|
  {
    acts == [] || (Enabled(u, s, acts[0]) && Runs(u, Apply(u, s, acts[0]), acts[1..]))
  }

  function After(u: Setup, s: State, acts: seq<Action>): State
    requires Runs(u, s, acts)
    decreases |acts|
  {
    if acts == [] then s else After(u, Apply(u, s, acts[0]), acts[1..])
  }

  // ---- The invariant

  /** How many closers the runner has started. */
  function ClosersStarted(u: Setup, r: Runner): nat {
    match r
    case BetweenClosers(next) => next
    case InCloser(i) => i + 1
    case Finished => u.closers
    case _ => 0
  }

  /** Both counts cover the flushes they should, and nothing else. */
  predicate Counted(s: State) {
    && s.working !! s.leaving && s.working !! s.gone && s.leaving !! s.gone
    && s.flushesRunning == |s.working|
    && s.waitGroup == |s.working| + |s.leaving|
  }

  /** Closers are started once each, in order, and never under a later deadline than Shutdown's. */
  predicate ClosersInOrder(u: Setup, s: State) {
    && |s.started| == ClosersStarted(u, s.runner) <= u.closers
    && forall i :: 0 <= i < |s.started| ==>
         && s.started[i].closer == i
         && s.started[i].deadline.Some? == u.deadline.Some?
         && (u.deadline.Some? ==> s.started[i].deadline.value <= u.deadline.value)
  }

  predicate PastTheWait(r: Runner) {
    r.BetweenClosers? || r.InCloser? || r.Finished?
  }

  /** The time until which Shutdown may wait for flushes, read when it was marked. */
  predicate WaitShareOver(u: Setup, s: State, until: Time) {
    s.cancelled || until <= s.now
  }

  /** `until` is the end of the wait share, once Shutdown has been marked with flushes running. */
  predicate FlushesFirst(u: Setup, s: State, until: Time) {
    && (s.shutdownStarted <==> s.runner.Waiting? || PastTheWait(s.runner))
    && (s.runner.Waiting? ==> s.runner.until == until && s.sawRunning)
    && (PastTheWait(s.runner) && u.deadline.Some? ==>
          s.working == {} || (s.sawRunning && WaitShareOver(u, s, until)))
    && (PastTheWait(s.runner) && u.deadline.Some? && s.sawRunning ==> s.waitGroup == 0 || WaitShareOver(u, s, until))
  }

  lemma CountsChange(s: set<Caller>, c: Caller)
    ensures c in s ==> |s - {c}| == |s| - 1
    ensures c !in s ==> |s + {c}| == |s| + 1
  {
  }

  lemma StepKeepsCounts(u: Setup, s: State, a: Action)
    requires Counted(s) && Enabled(u, s, a)
    ensures Counted(Apply(u, s, a))
  {
    if a.FlushEnters? || a.FlushCountsOut? || a.FlushDone? {
      CountsChange(s.working, a.c);
      CountsChange(s.leaving, a.c);
    }
  }

  lemma StepKeepsOrder(u: Setup, s: State, a: Action)
    requires ClosersInOrder(u, s) && Enabled(u, s, a)
    ensures ClosersInOrder(u, Apply(u, s, a))
    ensures s.started <= Apply(u, s, a).started
  {
  }

  /** The end of the wait share after a step: fixed when Shutdown is marked. */
  function UntilAfter(u: Setup, s: State, a: Action, until: Time): Time
    requires Enabled(u, s, a)
  {
    if a.MarkStarted? && Apply(u, s, a).runner.Waiting? then Apply(u, s, a).runner.until else until
  }

  lemma StepKeepsFlushesFirst(u: Setup, s: State, a: Action, until: Time)
    requires Counted(s) && FlushesFirst(u, s, until) && Enabled(u, s, a)
    ensures FlushesFirst(u, Apply(u, s, a), UntilAfter(u, s, a, until))
  {
    if a.MarkStarted? && s.flushesRunning == 0 {
      assert s.working == {};
    }
    if a.WaitEnds? && s.waitGroup == 0 {
      assert s.working == {};
    }
    if a.FlushCountsOut? || a.FlushDone? {
      RunningIsCounted(s, a.c);
    }
  }

  lemma RunningIsCounted(s: State, c: Caller)
    requires Counted(s) && c in s.working + s.leaving
    ensures s.waitGroup > 0
  {
    CountsChange(s.working, c);
    CountsChange(s.leaving, c);
  }

  /** Once Shutdown is marked no flush is added: the calls at work and leaving only drain. */
  lemma StepAddsNoFlush(u: Setup, s: State, a: Action)
    requires s.shutdownStarted && Enabled(u, s, a)
    ensures var s' := Apply(u, s, a);
            s'.shutdownStarted && s'.working <= s.working && s'.working + s'.leaving <= s.working + s.leaving
  {
  }

  lemma {:induction false} RunAddsNoFlush(u: Setup, s: State, acts: seq<Action>)
    requires Runs(u, s, acts) && s.shutdownStarted
    ensures var s' := After(u, s, acts);
            s'.shutdownStarted && s'.working <= s.working && s'.working + s'.leaving <= s.working + s.leaving
    decreases |acts|
  {
    if acts != [] {
      StepAddsNoFlush(u, s, acts[0]);
      RunAddsNoFlush(u, Apply(u, s, acts[0]), acts[1..]);
    }
  }

  ghost predicate Inv(u: Setup, s: State, until: Time) {
    && Counted(s) && ClosersInOrder(u, s) && FlushesFirst(u, s, until)
    && (s.released != {} ==> s.runner.Finished?)
  }

  lemma {:induction false} RunKeepsInv(u: Setup, s: State, acts: seq<Action>, until: Time) returns (until': Time)
    requires Inv(u, s, until) && Runs(u, s, acts)
    ensures Inv(u, After(u, s, acts), until')
    decreases |acts|
  {
    until' := until;
    if acts != [] {
      StepKeepsCounts(u, s, acts[0]);
      StepKeepsOrder(u, s, acts[0]);
      StepKeepsFlushesFirst(u, s, acts[0], until);
      until' := RunKeepsInv(u, Apply(u, s, acts[0]), acts[1..], UntilAfter(u, s, acts[0], until));
    }
  }

  /** However many Shutdown and ForceFlush calls interleave, the closers started so far are the
      first ones in order, each once, and a Shutdown call returns only after all of them ran. */
  lemma EachCloserOnceInOrder(u: Setup, s: State, acts: seq<Action>)
    requires Initial(s) && Runs(u, s, acts)
    ensures var s' := After(u, s, acts);
            && |s'.started| <= u.closers
            && (forall i :: 0 <= i < |s'.started| ==> s'.started[i].closer == i)
            && (s'.released != {} ==> |s'.started| == u.closers && s'.runner.Finished?)
  {
    var until := RunKeepsInv(u, s, acts, 0);
  }

  /** No closer runs under a later deadline than the one Shutdown was called with. */
  lemma CloserDeadlinesStayWithin(u: Setup, s: State, acts: seq<Action>)
    requires Initial(s) && Runs(u, s, acts) && u.deadline.Some?
    ensures forall d :: d in After(u, s, acts).started ==> d.deadline.Some? && d.deadline.value <= u.deadline.value
  {
    var until := RunKeepsInv(u, s, acts, 0);
  }

  /** The closer that starts next is the first that has not run; before the deadline it has at least
      the even share of what is left among the closers still to run, and the last has all of it. */
  lemma CloserGetsItsShare(u: Setup, s: State, acts: seq<Action>, later: Time)
    requires Initial(s) && Runs(u, s, acts) && Enabled(u, After(u, s, acts), CloserStarts(later))
    ensures var before := After(u, s, acts);
            var i, d := |before.started|, Apply(u, before, CloserStarts(later)).started;
            && i < u.closers && |d| == i + 1 && d[..i] == before.started && d[i].closer == i
            && (u.deadline.None? ==> d[i].deadline.None?)
            && (u.deadline.Some? ==> d[i].deadline.Some? && d[i].deadline.value <= u.deadline.value)
            && (u.deadline.Some? && before.now <= u.deadline.value ==>
                  before.now + (u.deadline.value - before.now) / (u.closers - i) <= d[i].deadline.value)
            && (i == u.closers - 1 ==> d[i].deadline == u.deadline)
  {
    var until := RunKeepsInv(u, s, acts, 0);
    var before := After(u, s, acts);
    var i := |before.started|;
    if u.deadline.Some? && before.now <= u.deadline.value {
      EvenShareAtLeast(u.deadline.value, before.now, later, u.closers - i);
    }
  }

  /** The wait group covers exactly the flushes that have not returned. */
  lemma WaitGroupCoversFlushes(u: Setup, s: State, acts: seq<Action>)
    requires Initial(s) && Runs(u, s, acts)
    ensures var s' := After(u, s, acts);
            && s'.waitGroup == |s'.working + s'.leaving|
            && s'.flushesRunning == |s'.working|
            && 0 <= s'.flushesRunning <= s'.waitGroup
  {
    var until := RunKeepsInv(u, s, acts, 0);
    var s' := After(u, s, acts);
    assert |s'.working + s'.leaving| == |s'.working| + |s'.leaving|;
  }

  // ---- Flushes before closers

  lemma StepKeepsTheSnapshot(u: Setup, s: State, a: Action, until: Time)
    requires Inv(u, s, until) && s.shutdownStarted && Enabled(u, s, a)
    ensures Inv(u, Apply(u, s, a), until) && Apply(u, s, a).shutdownStarted
    ensures Apply(u, s, a).sawRunning == s.sawRunning
  {
    StepKeepsCounts(u, s, a);
    StepKeepsOrder(u, s, a);
    StepKeepsFlushesFirst(u, s, a, until);
  }

  lemma {:induction false} MarkedRun(u: Setup, s: State, acts: seq<Action>, until: Time)
    requires Inv(u, s, until) && s.shutdownStarted && Runs(u, s, acts)
    ensures Inv(u, After(u, s, acts), until) && After(u, s, acts).sawRunning == s.sawRunning
    decreases |acts|
  {
    if acts != [] {
      StepKeepsTheSnapshot(u, s, acts[0], until);
      MarkedRun(u, Apply(u, s, acts[0]), acts[1..], until);
    }
  }

  lemma MarkingKeepsInv(u: Setup, s: State, later: Time, until0: Time)
    requires Inv(u, s, until0) && u.deadline.Some? && Enabled(u, s, MarkStarted(later))
    ensures Inv(u, Apply(u, s, MarkStarted(later)), ShutdownBudget(u.deadline, s.now, later, u.closers + 1).value)
  {
    StepKeepsCounts(u, s, MarkStarted(later));
    StepKeepsOrder(u, s, MarkStarted(later));
    StepKeepsFlushesFirst(u, s, MarkStarted(later), until0);
    if s.flushesRunning == 0 {
      assert s.working == {};
    }
  }

  /** A Shutdown with a deadline lets the flushes it finds finish first: whenever a closer has been
      started no flush is at work, unless the share of the deadline reserved for that wait is over
      or its context was cancelled. The flushes still running are among those it found. */
  lemma FlushesFinishBeforeClosers(u: Setup, s: State, before: seq<Action>, later: Time, more: seq<Action>)
    requires Initial(s) && u.deadline.Some? && Runs(u, s, before)
    requires Enabled(u, After(u, s, before), MarkStarted(later))
    requires Runs(u, Apply(u, After(u, s, before), MarkStarted(later)), more)
    ensures var found := After(u, s, before);
            var s' := After(u, Apply(u, found, MarkStarted(later)), more);
            var until := ShutdownBudget(u.deadline, found.now, later, u.closers + 1).value;
            && s'.working <= found.working
            && until <= u.deadline.value
            && (found.now <= u.deadline.value ==>
                  found.now + (u.deadline.value - found.now) / (u.closers + 1) <= until)
            && (s'.started != [] && s'.working != {} ==> s'.cancelled || until <= s'.now)
            && (s'.started != [] && found.working != {} && s'.leaving != {} ==> s'.cancelled || until <= s'.now)
  {
    var until0 := RunKeepsInv(u, s, before, 0);
    var found := After(u, s, before);
    var marked := Apply(u, found, MarkStarted(later));
    var until := ShutdownBudget(u.deadline, found.now, later, u.closers + 1).value;
    MarkingKeepsInv(u, found, later, until0);
    MarkedRun(u, marked, more, until);
    RunAddsNoFlush(u, marked, more);
    if found.now <= u.deadline.value {
      EvenShareAtLeast(u.deadline.value, found.now, later, u.closers + 1);
    }
  }
}

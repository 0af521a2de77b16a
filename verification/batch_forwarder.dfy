/**
 * The goroutine that forwards a fetched batch into a bounded channel, its reader and Stop
 * (nats/jetstream.go:537-602), as atomic steps of four parties: the forwarder, the reader
 * of Messages(), the caller of Stop and the upstream subscription.
 */
module BatchForwarder {
  type Msg(==, !new)

  /** Where the forwarder is: at the outer select, at the inner one with a message in hand,
      or on its way out through the two deferred calls. */
  datatype Forwarder = Receiving | Sending(m: Msg) | Cancelling | Closing | Exited

  /** How far Stop has got: it closes done, cancels the fetch, then stops the upstream batch. */
  datatype StopPhase = NotCalled | DoneClosed | FetchCancelled | UpstreamStopped

  datatype State = State(
    arrived: seq<Msg>,      // everything the upstream channel has carried so far
    upstreamClosed: bool,
    taken: nat,             // how many of those the forwarder has received
    forwarder: Forwarder,
    buffer: seq<Msg>,       // the out channel
    outClosed: bool,
    reading: bool,          // the reader waits at a receive from out
    delivered: seq<Msg>,
    dropped: seq<Msg>,      // in hand when Stop was noticed
    stop: StopPhase,
    fetchCancelled: bool)

  const START := State([], false, 0, Receiving, [], false, false, [], [], NotCalled, false)

  predicate Stopped(s: State) {
    s.stop != NotCalled
  }

  datatype Action =
    // the forwarder
    | TakeMessage | SeeUpstreamClosed | SendToBuffer | HandOver | GiveUpReceiving | GiveUpSending | CancelFetch | CloseOut
    // the reader
    | Ask | ReadBuffer | ReadEnd
    // Stop
    | CloseDone | StopCancelsFetch | StopUpstream
    // the upstream
    | Arrive(m: Msg) | UpstreamCloses

  predicate ByForwarder(a: Action) {
    a.TakeMessage? || a.SeeUpstreamClosed? || a.SendToBuffer? || a.HandOver? || a.GiveUpReceiving? || a.GiveUpSending?
    || a.CancelFetch? || a.CloseOut?
  }

  predicate Enabled(bufSize: nat, s: State, a: Action) {
    match a
    case TakeMessage => s.forwarder.Receiving? && s.taken < |s.arrived|
    case SeeUpstreamClosed => s.forwarder.Receiving? && s.taken >= |s.arrived| && s.upstreamClosed
    case SendToBuffer => s.forwarder.Sending? && |s.buffer| < bufSize
    // A waiting reader takes the message without it passing through the buffer.
    case HandOver => s.forwarder.Sending? && s.buffer == [] && s.reading
    case GiveUpReceiving => s.forwarder.Receiving? && Stopped(s)
    case GiveUpSending => s.forwarder.Sending? && Stopped(s)
    case CancelFetch => s.forwarder.Cancelling?
    case CloseOut => s.forwarder.Closing?
    case Ask => !s.reading
    case ReadBuffer => s.reading && s.buffer != []
    case ReadEnd => s.reading && s.buffer == [] && s.outClosed
    case CloseDone => s.stop.NotCalled?
    case StopCancelsFetch => s.stop.DoneClosed?
    case StopUpstream => s.stop.FetchCancelled?
    case Arrive(_) => !s.upstreamClosed
    case UpstreamCloses => !s.upstreamClosed
  }

  function Apply(bufSize: nat, s: State, a: Action): State
    requires Enabled(bufSize, s, a)
  {
    match a
    case TakeMessage => s.(taken := s.taken + 1, forwarder := Sending(s.arrived[s.taken]))
    case SeeUpstreamClosed => s.(forwarder := Cancelling)
    case SendToBuffer => s.(buffer := s.buffer + [s.forwarder.m], forwarder := Receiving)
    case HandOver => s.(delivered := s.delivered + [s.forwarder.m], reading := false, forwarder := Receiving)
    case GiveUpReceiving => s.(forwarder := Cancelling)
    case GiveUpSending => s.(dropped := [s.forwarder.m], forwarder := Cancelling)
    case CancelFetch => s.(fetchCancelled := true, forwarder := Closing)
    case CloseOut => s.(outClosed := true, forwarder := Exited)
    case Ask => s.(reading := true)
    case ReadBuffer => s.(delivered := s.delivered + [s.buffer[0]], buffer := s.buffer[1..], reading := false)
    case ReadEnd => s.(reading := false)
    case CloseDone => s.(stop := DoneClosed)
    case StopCancelsFetch => s.(stop := FetchCancelled, fetchCancelled := true)
    case StopUpstream => s.(stop := UpstreamStopped)
    case Arrive(m) => s.(arrived := s.arrived + [m])
    case UpstreamCloses => s.(upstreamClosed := true)
  }

  /** The actions can happen one after the other from `s`. */
  predicate Runs(bufSize: nat, s: State, acts: seq<Action>)
    decreases |acts|
  {
    acts == [] || (Enabled(bufSize, s, acts[0]) && Runs(bufSize, Apply(bufSize, s, acts[0]), acts[1..]))
  }

  function After(bufSize: nat, s: State, acts: seq<Action>): State
    requires Runs(bufSize, s, acts)
    decreases |acts|
  {
    if acts == [] then s else After(bufSize, Apply(bufSize, s, acts[0]), acts[1..])
  }

  // ---- Safety

  function InHand(f: Forwarder): seq<Msg> {
    if f.Sending? then [f.m] else []
  }

  predicate OnItsWayOut(f: Forwarder) {
    f.Cancelling? || f.Closing? || f.Exited?
  }

  /** The forwarder or Stop has got past cancelling the fetch. */
  predicate PastCancel(s: State) {
    s.forwarder.Closing? || s.forwarder.Exited? || s.stop.FetchCancelled? || s.stop.UpstreamStopped?
  }

  /** Nothing is lost, doubled or reordered; only Stop drops a message or leaves one unread
      upstream; the fetch is cancelled before the channel is closed. */
  predicate Inv(bufSize: nat, s: State) {
    && s.taken <= |s.arrived|
    && s.delivered + s.buffer + InHand(s.forwarder) + s.dropped == s.arrived[..s.taken]
    && |s.buffer| <= bufSize
    && (s.dropped != [] ==> Stopped(s) && OnItsWayOut(s.forwarder))
    && (OnItsWayOut(s.forwarder) && !Stopped(s) ==> s.upstreamClosed && s.taken == |s.arrived|)
    && (s.outClosed <==> s.forwarder.Exited?)
    && (s.fetchCancelled <==> PastCancel(s))
    && |s.dropped| <= 1
  }

  lemma ForwarderKeepsInv(bufSize: nat, s: State, a: Action)
    requires Inv(bufSize, s) && Enabled(bufSize, s, a) && ByForwarder(a)
    ensures Inv(bufSize, Apply(bufSize, s, a))
  {
    var s' := Apply(bufSize, s, a);
    if a.TakeMessage? {
      assert s.arrived[..s.taken + 1] == s.arrived[..s.taken] + [s.arrived[s.taken]];
      assert s'.delivered + s'.buffer + InHand(s'.forwarder) + s'.dropped
          == s.delivered + s.buffer + InHand(s.forwarder) + s.dropped + [s.arrived[s.taken]];
    } else {
      assert s'.delivered + s'.buffer + InHand(s'.forwarder) + s'.dropped
          == s.delivered + s.buffer + InHand(s.forwarder) + s.dropped;
    }
  }

  lemma OthersKeepInv(bufSize: nat, s: State, a: Action)
    requires Inv(bufSize, s) && Enabled(bufSize, s, a) && !ByForwarder(a)
    ensures Inv(bufSize, Apply(bufSize, s, a))
  {
    var s' := Apply(bufSize, s, a);
    if a.ReadBuffer? {
      assert s'.delivered + s'.buffer == s.delivered + s.buffer;
    }
    assert s'.arrived[..s'.taken] == s.arrived[..s.taken];
  }

  lemma {:induction false} RunKeepsInv(bufSize: nat, s: State, acts: seq<Action>)
    requires Inv(bufSize, s) && Runs(bufSize, s, acts)
    ensures Inv(bufSize, After(bufSize, s, acts))
    decreases |acts|
  {
    if acts != [] {
      if ByForwarder(acts[0]) {
        ForwarderKeepsInv(bufSize, s, acts[0]);
      } else {
        OthersKeepInv(bufSize, s, acts[0]);
      }
      RunKeepsInv(bufSize, Apply(bufSize, s, acts[0]), acts[1..]);
    }
  }

  /** In every run what the reader got, what waits in the channel and what the forwarder holds
      are, in this order, a prefix of what the upstream sent: all the forwarder received, but for one
      message at most once Stop was called. */
  lemma InOrderWithoutLoss(bufSize: nat, acts: seq<Action>)
    requires Runs(bufSize, START, acts)
    ensures var s := After(bufSize, START, acts);
            && s.delivered + s.buffer + InHand(s.forwarder) <= s.arrived
            && |s.buffer| <= bufSize
            && s.taken - (if Stopped(s) then 1 else 0) <= |s.delivered + s.buffer + InHand(s.forwarder)| <= s.taken
  {
    RunKeepsInv(bufSize, START, acts);
    var s := After(bufSize, START, acts);
    var out := s.delivered + s.buffer + InHand(s.forwarder);
    assert out + s.dropped == s.arrived[..s.taken];
    assert out == (out + s.dropped)[..|out|];
  }

  /** Unless Stop was called the channel is closed only behind the whole batch, and it is never
      closed before the fetch context is released. */
  lemma ClosedMeansComplete(bufSize: nat, acts: seq<Action>)
    requires Runs(bufSize, START, acts)
    ensures var s := After(bufSize, START, acts);
            s.outClosed ==>
              && s.fetchCancelled
              && (!Stopped(s) ==> s.upstreamClosed && s.delivered + s.buffer == s.arrived)
  {
    RunKeepsInv(bufSize, START, acts);
    var s := After(bufSize, START, acts);
    if s.outClosed && !Stopped(s) {
      assert s.delivered + s.buffer + InHand(s.forwarder) + s.dropped == s.delivered + s.buffer;
      assert s.arrived[..s.taken] == s.arrived;
    }
  }

  /** The fetch context is released exactly when the forwarder has got to closing the channel or Stop
      has got past that step: always in the end, never while a message may still be forwarded unstopped. */
  lemma FetchIsReleasedExactly(bufSize: nat, acts: seq<Action>)
    requires Runs(bufSize, START, acts)
    ensures var s := After(bufSize, START, acts);
            && (s.fetchCancelled <==> PastCancel(s))
            && (s.fetchCancelled && !Stopped(s) ==> s.upstreamClosed && s.delivered + s.buffer == s.arrived)
  {
    RunKeepsInv(bufSize, START, acts);
    var s := After(bufSize, START, acts);
    if s.fetchCancelled && !Stopped(s) {
      assert s.delivered + s.buffer + InHand(s.forwarder) + s.dropped == s.delivered + s.buffer;
      assert s.arrived[..s.taken] == s.arrived;
    }
  }

  /** A reader told that the batch ended has been given all of it, unless Stop was called. */
  lemma EndMeansAllRead(bufSize: nat, acts: seq<Action>)
    requires Runs(bufSize, START, acts) && Enabled(bufSize, After(bufSize, START, acts), ReadEnd)
    requires !Stopped(After(bufSize, START, acts))
    ensures After(bufSize, START, acts).delivered == After(bufSize, START, acts).arrived
  {
    ClosedMeansComplete(bufSize, acts);
    var s := After(bufSize, START, acts);
    assert s.delivered + [] == s.delivered;
  }

  // ---- Progress

  /** The forwarder has a step to take. */
  ghost predicate CanStep(bufSize: nat, s: State) {
    exists a :: ByForwarder(a) && Enabled(bufSize, s, a)
  }

  /** The forwarder waits exactly when it is done, or when Stop has not been called and it either
      has nothing to receive from an open upstream or nowhere to put what it holds. */
  lemma WaitsExactly(bufSize: nat, s: State)
    requires Inv(bufSize, s)
    ensures !CanStep(bufSize, s) <==>
            || s.forwarder.Exited?
            || (!Stopped(s) && s.forwarder.Receiving? && s.taken == |s.arrived| && !s.upstreamClosed)
            || (!Stopped(s) && s.forwarder.Sending? && |s.buffer| == bufSize && !(s.buffer == [] && s.reading))
  {
    match s.forwarder
    case Receiving =>
      assert ByForwarder(TakeMessage) && ByForwarder(SeeUpstreamClosed) && ByForwarder(GiveUpReceiving);
    case Sending(_) =>
      assert ByForwarder(SendToBuffer) && ByForwarder(HandOver) && ByForwarder(GiveUpSending);
    case Cancelling => assert ByForwarder(CancelFetch);
    case Closing => assert ByForwarder(CloseOut);
    case Exited =>
  }

  /** Steps the forwarder can still take on what has arrived. */
  function StepsLeft(s: State): nat
    requires s.taken <= |s.arrived|
  {
    2 * (|s.arrived| - s.taken) +
      match s.forwarder
      case Receiving => 3
      case Sending(_) => 4
      case Cancelling => 2
      case Closing => 1
      case Exited => 0
  }

  function ForwarderSteps(acts: seq<Action>): nat {
    if acts == [] then 0 else (if ByForwarder(acts[0]) then 1 else 0) + ForwarderSteps(acts[1..])
  }

  function Arrivals(acts: seq<Action>): nat {
    if acts == [] then 0 else (if acts[0].Arrive? then 1 else 0) + Arrivals(acts[1..])
  }

  lemma StepIsPaidFor(bufSize: nat, s: State, a: Action)
    requires Inv(bufSize, s) && Enabled(bufSize, s, a)
    ensures var s' := Apply(bufSize, s, a);
            && Inv(bufSize, s')
            && (ByForwarder(a) ==> StepsLeft(s') < StepsLeft(s))
            && (!ByForwarder(a) ==> StepsLeft(s') == StepsLeft(s) + if a.Arrive? then 2 else 0)
  {
    if ByForwarder(a) {
      ForwarderKeepsInv(bufSize, s, a);
    } else {
      OthersKeepInv(bufSize, s, a);
    }
  }

  /** Whatever the others do, the forwarder's steps are paid for by what had arrived and two more
      for each message arriving since. */
  lemma {:induction false} StepsAreBounded(bufSize: nat, s: State, acts: seq<Action>)
    requires Inv(bufSize, s) && Runs(bufSize, s, acts)
    ensures Inv(bufSize, After(bufSize, s, acts))
    ensures ForwarderSteps(acts) + StepsLeft(After(bufSize, s, acts)) <= StepsLeft(s) + 2 * Arrivals(acts)
    decreases |acts|
  {
    if acts != [] {
      StepIsPaidFor(bufSize, s, acts[0]);
      StepsAreBounded(bufSize, Apply(bufSize, s, acts[0]), acts[1..]);
    }
  }

  lemma {:induction false} StopAndCloseLast(bufSize: nat, s: State, acts: seq<Action>)
    requires Runs(bufSize, s, acts)
    ensures Stopped(s) ==> Stopped(After(bufSize, s, acts))
    ensures s.upstreamClosed ==> After(bufSize, s, acts).upstreamClosed && After(bufSize, s, acts).arrived == s.arrived
    ensures s.upstreamClosed ==> Arrivals(acts) == 0
    decreases |acts|
  {
    if acts != [] {
      StopAndCloseLast(bufSize, Apply(bufSize, s, acts[0]), acts[1..]);
    }
  }

  /** Once Stop is called the forwarder always finishes: it takes boundedly many steps for the
      messages that arrived, and as long as it has not exited there is one it can take. */
  lemma StopReleasesTheForwarder(bufSize: nat, acts: seq<Action>, more: seq<Action>)
    requires Runs(bufSize, START, acts) && Stopped(After(bufSize, START, acts))
    requires Runs(bufSize, After(bufSize, START, acts), more)
    ensures var s, s' := After(bufSize, START, acts), After(bufSize, After(bufSize, START, acts), more);
            && s.taken <= |s.arrived|
            && ForwarderSteps(more) <= StepsLeft(s) + 2 * Arrivals(more)
            && (CanStep(bufSize, s') <==> !s'.forwarder.Exited?)
  {
    RunKeepsInv(bufSize, START, acts);
    var s := After(bufSize, START, acts);
    StepsAreBounded(bufSize, s, more);
    StopAndCloseLast(bufSize, s, more);
    WaitsExactly(bufSize, After(bufSize, s, more));
  }

  /** A closed upstream with no more messages than the channel holds is drained whether or not
      anybody reads and whether or not Stop is called. */
  lemma SmallBatchNeedsNoReader(bufSize: nat, acts: seq<Action>, more: seq<Action>)
    requires Runs(bufSize, START, acts)
    requires var s := After(bufSize, START, acts); s.upstreamClosed && |s.arrived| <= bufSize
    requires Runs(bufSize, After(bufSize, START, acts), more)
    ensures var s, s' := After(bufSize, START, acts), After(bufSize, After(bufSize, START, acts), more);
            && s.taken <= |s.arrived|
            && ForwarderSteps(more) <= StepsLeft(s)
            && (CanStep(bufSize, s') <==> !s'.forwarder.Exited?)
  {
    RunKeepsInv(bufSize, START, acts);
    var s := After(bufSize, START, acts);
    StepsAreBounded(bufSize, s, more);
    StopAndCloseLast(bufSize, s, more);
    var s' := After(bufSize, s, more);
    WaitsExactly(bufSize, s');
    if s'.forwarder.Sending? {
      assert |s'.delivered + s'.buffer + InHand(s'.forwarder) + s'.dropped| == s'.taken;
    }
  }

  /** The bound is needed: a forwarder that got out with nothing read and no Stop had a batch
      that fits the channel. */
  lemma UnreadMeansItFits(bufSize: nat, acts: seq<Action>)
    requires Runs(bufSize, START, acts)
    requires var s := After(bufSize, START, acts); s.forwarder.Exited? && s.delivered == [] && !Stopped(s)
    ensures |After(bufSize, START, acts).arrived| <= bufSize
  {
    RunKeepsInv(bufSize, START, acts);
    ClosedMeansComplete(bufSize, acts);
  }
}

/**
 Byte order and termination of the local TCP connection over whole runs, in both directions.

 The connection callback and the readable event run on the event loop; a readable event is as many steps as it reads
 chunks.  Stop requests come from any thread at any time.  So does SendData here, although the client's one event loop
 keeps it apart from the callbacks: what that is needed for is `Overtakes`.
 */
module TcpForwardSystem {
  import opened ByteType
  import opened Options
  import opened TcpForward

  /** What the event loop is in the middle of; `end` is the error that ends the connection once all is delivered. */
  datatype Loop =
    | Idle
    | Subscribing
    | Marking
    | Flushing
    | Reading(everything: seq<Byte>, end: Option<int>)
    | Delivering(everything: seq<Byte>, end: Option<int>)
    | Failing(error: int)

  datatype System = System(
    f: Forward,
    loop: Loop,
    resultDue: bool,           // the socket still has to report on the connect
    readable: bool,            // readable events are subscribed to
    stopTasks: multiset<bool>, // StopOnEventLoop calls about to run, each with its notifyOwner
    destroyed: bool,
    // history
    winner: Option<bool>,      // notifyOwner of the stop request that came first
    reason: int,               // and its error code
    accepted: seq<Byte>,       // all bytes that SendData took
    written: seq<Byte>,        // all bytes handed to the socket
    incoming: seq<Byte>,       // all bytes read from the socket and appended
    heard: seq<Event>,         // what the owner has been told
    socketCleanUps: nat,
    bufferCleanUps: nat)

  function Init(socketReady: bool, bufferReady: bool): System {
    System(Fresh(socketReady, bufferReady), Idle, false, false, multiset{}, false, None, 0, [], [], [], [], 0, 0)
  }

  datatype Action =
    | Connect(hasLoop: bool, submitted: bool)
    | AskStop(notifyOwner: bool, error: int)
    | RunStop(notifyOwner: bool)
    | CancelStop(notifyOwner: bool)
    | Send(data: seq<Byte>, appends: bool, writes: bool, error: int)
    | ReportConnection(error: int)
    | SubscribeReadable(error: int)
    | MarkConnected
    | Flush(writes: bool, error: int)
    | StartReading(error: int)
    | ReadChunk(answer: Read)
    | Deliver
    | StopAfterFailure
    | Destroy

  /** A stop of a forward that has an event loop runs there, so it does not fall into a readable event. */
  predicate Enabled(s: System, a: Action) {
    !s.destroyed &&
    match a
    case Connect(_, _) => true
    case AskStop(_, _) => true
    case RunStop(notifyOwner) => notifyOwner in s.stopTasks && !s.loop.Reading? && !s.loop.Delivering?
    case CancelStop(notifyOwner) => notifyOwner in s.stopTasks
    case Send(_, _, _, _) => true
    case ReportConnection(_) => s.loop.Idle? && s.resultDue
    case SubscribeReadable(_) => s.loop.Subscribing?
    case MarkConnected => s.loop.Marking?
    case Flush(_, _) => s.loop.Flushing?
    case StartReading(_) => s.loop.Idle? && s.readable && !s.f.stopped
    case ReadChunk(_) => s.loop.Reading?
    case Deliver => s.loop.Delivering?
    case StopAfterFailure => s.loop.Failing?
    case Destroy => s.loop.Idle? && !s.f.keepAlive && s.stopTasks == multiset{}
  }

  function RequestStop(s: System, notifyOwner: bool, error: int): System {
    var (f, won) := RequestStopSection(s.f);
    if won then
      s.(f := f, winner := Some(notifyOwner), reason := error, stopTasks := s.stopTasks + multiset{notifyOwner})
    else
      s
  }

  function Count(b: bool): nat {
    if b then 1 else 0
  }

  /** A SendData call of another thread stops the forward by a request of its own when it fails. */
  function SendOutcome(loop: Loop, sent: Sent, error: int): Loop {
    if loop.Idle? && (sent.TooLong? || sent.AppendFailed? || sent.WriteFailed?) then Failing(error) else loop
  }

  function ReadOutcome(everything: seq<Byte>, end: Option<int>, answer: Read): Loop {
    if StopsReading(answer) then Delivering(everything, if ReasonOf(answer).Some? then ReasonOf(answer) else end)
    else Reading(everything + answer.bytes, end)
  }

  function Step(s: System, a: Action): System
    requires Enabled(s, a)
  {
    match a
    case Connect(hasLoop, submitted) =>
      var (f, success) := ConnectSection(s.f, hasLoop, submitted);
      s.(f := f, resultDue := s.resultDue || success)
    case AskStop(notifyOwner, error) => RequestStop(s, notifyOwner, error)
    case RunStop(notifyOwner) =>
      var (f, c) := StopSection(s.f);
      s.(f := f, stopTasks := s.stopTasks - multiset{notifyOwner},
         socketCleanUps := s.socketCleanUps + Count(c.socket),
         bufferCleanUps := s.bufferCleanUps + Count(c.sendBuffer),
         heard := if c.first && notifyOwner then s.heard + [Terminated(s.reason)] else s.heard)
    case CancelStop(notifyOwner) => s.(stopTasks := s.stopTasks - multiset{notifyOwner})
    case Send(data, appends, writes, error) =>
      var (f, sent) := SendSection(s.f, data, appends, writes);
      s.(f := f,
         accepted := if sent.Buffered? || sent.Written? then s.accepted + data else s.accepted,
         written := if sent.Written? then s.written + data else s.written,
         loop := SendOutcome(s.loop, sent, error))
    case ReportConnection(error) =>
      s.(resultDue := false,
         loop := if error != 0 then Failing(error) else if Running(s.f) then Subscribing else Idle)
    case SubscribeReadable(error) =>
      if error != 0 then s.(loop := Failing(error)) else s.(loop := Marking, readable := true)
    case MarkConnected =>
      if Running(s.f) then s.(f := s.f.(connected := true), loop := Flushing) else s.(loop := Idle)
    case Flush(writes, error) =>
      var (f, flushed) := FlushSection(s.f, writes);
      s.(f := f, written := if flushed.Flushed? then s.written + s.f.buffer else s.written,
         loop := if flushed.FlushFailed? then Failing(error) else Idle)
    case StartReading(error) =>
      s.(loop := if error == 0 then Reading([], None)
                 else if error == SOCKET_CLOSED then Reading([], Some(SOCKET_CLOSED))
                 else Failing(error))
    case ReadChunk(answer) =>
      s.(loop := ReadOutcome(s.loop.everything, s.loop.end, answer),
         incoming := if StopsReading(answer) then s.incoming else s.incoming + answer.bytes)
    case Deliver =>
      s.(heard := if s.loop.everything == [] then s.heard else s.heard + [Delivered(s.loop.everything)],
         loop := if s.loop.end.Some? then Failing(s.loop.end.value) else Idle)
    case StopAfterFailure => RequestStop(s, true, s.loop.error).(loop := Idle)
    case Destroy =>
      s.(destroyed := true,
         socketCleanUps := s.socketCleanUps + Count(s.f.socketInitialized && !s.f.hasEventLoop),
         bufferCleanUps := s.bufferCleanUps + Count(s.f.sendBufferInitialized))
  }

  predicate Runs(s: System, actions: seq<Action>)
    decreases |actions|
  {
    actions != [] ==> Enabled(s, actions[0]) && Runs(Step(s, actions[0]), actions[1..])
  }

  function After(s: System, actions: seq<Action>): System
    requires Runs(s, actions)
    decreases |actions|
  {
    if actions == [] then s else After(Step(s, actions[0]), actions[1..])
  }

  /** Data is sent over a connection that has not flushed what was accepted before. */
  predicate Overtakes(s: System, a: Action) {
    a.Send? && a.data != [] && Running(s.f) && s.f.connected && s.f.buffer != []
  }

  predicate Orderly(s: System, actions: seq<Action>)
    requires Runs(s, actions)
    decreases |actions|
  {
    actions != [] ==> !Overtakes(s, actions[0]) && Orderly(Step(s, actions[0]), actions[1..])
  }

  /** Every send is made between two callbacks, as on the one event loop of the client. */
  predicate Serialized(s: System, actions: seq<Action>)
    requires Runs(s, actions)
    decreases |actions|
  {
    actions != [] ==>
      (actions[0].Send? ==> s.loop.Idle?) && Serialized(Step(s, actions[0]), actions[1..])
  }

  ghost predicate Reachable(s: System) {
    exists socketReady, bufferReady, actions :: ReachedBy(s, socketReady, bufferReady, actions)
  }

  predicate ReachedBy(s: System, socketReady: bool, bufferReady: bool, actions: seq<Action>) {
    Runs(Init(socketReady, bufferReady), actions) && After(Init(socketReady, bufferReady), actions) == s
  }

  /** Reached by a run in which nothing overtakes. */
  ghost predicate ReachableInOrder(s: System) {
    exists socketReady, bufferReady, actions ::
      ReachedBy(s, socketReady, bufferReady, actions) && Orderly(Init(socketReady, bufferReady), actions)
  }

  // ---------------------------------------------------------------- the invariant

  predicate InOrder(f: Forward, accepted: seq<Byte>, written: seq<Byte>) {
    && (!f.stopped ==> accepted == written + f.buffer)
    && written <= accepted
  }

  predicate Upstream(f: Forward, loop: Loop) {
    && |f.buffer| <= MAX_SEND_BUFFER_SIZE
    && (f.connected && Running(f) && (loop.Idle? || loop.Reading? || loop.Delivering?) ==> f.buffer == [])
    && (loop.Subscribing? || loop.Marking? ==> !f.connected)
  }

  /** The socket reports on a connect once, and only a connected socket becomes readable. */
  predicate Connection(f: Forward, loop: Loop, resultDue: bool, readable: bool) {
    && (resultDue || readable || loop.Subscribing? || loop.Marking? ==> f.hasEventLoop && f.connectStarted)
    && (resultDue ==> !f.connected && !loop.Subscribing? && !loop.Marking? && !readable)
    && (f.connected ==> f.connectStarted)
    && (loop.Reading? || loop.Delivering? ==> readable && !f.stopped)
    && (loop.Subscribing? ==> !readable)
  }

  predicate Stops(s: System) {
    && (s.f.stopRequested <==> s.winner.Some?)
    && (s.f.stopped ==> s.f.stopRequested && s.stopTasks == multiset{})
    && (s.winner.None? ==> s.stopTasks == multiset{})
    && (s.winner.Some? ==> s.stopTasks == multiset{} || s.stopTasks == multiset{s.winner.value})
  }

  predicate CleanUps(s: System) {
    && s.socketCleanUps <= 1 && s.bufferCleanUps <= 1
    && (!s.destroyed && s.f.socketInitialized ==> s.socketCleanUps == 0)
    && (!s.destroyed && s.f.sendBufferInitialized ==> s.bufferCleanUps == 0)
    && (s.f.stopped ==> !s.f.socketInitialized && !s.f.sendBufferInitialized)
  }

  /** The bytes of all deliveries, in order. */
  function DeliveredBytes(heard: seq<Event>): seq<Byte> {
    if heard == [] then []
    else
      var n := |heard| - 1;
      DeliveredBytes(heard[..n]) + match heard[n] { case Delivered(bytes) => bytes case Terminated(_) => [] }
  }

  function Pending(loop: Loop): seq<Byte> {
    if loop.Reading? || loop.Delivering? then loop.everything else []
  }

  predicate OnlyDeliveries(heard: seq<Event>) {
    forall i :: 0 <= i < |heard| ==> heard[i].Delivered? && heard[i].bytes != []
  }

  /** The owner has been told of the end, and that was the last it heard. */
  predicate Ended(heard: seq<Event>, reason: int) {
    heard != [] && heard[|heard| - 1] == Terminated(reason) && OnlyDeliveries(heard[..|heard| - 1])
  }

  predicate Downstream(s: System) {
    && DeliveredBytes(s.heard) + Pending(s.loop) == s.incoming
    && if s.f.stopped && s.winner == Some(true) then Ended(s.heard, s.reason) else OnlyDeliveries(s.heard)
  }

  predicate Carries(s: System) {
    Upstream(s.f, s.loop) && Connection(s.f, s.loop, s.resultDue, s.readable)
  }

  predicate Safe(s: System) {
    Carries(s) && Stops(s) && CleanUps(s) && Downstream(s)
  }

  predicate Inv(s: System) {
    Safe(s) && InOrder(s.f, s.accepted, s.written)
  }

  // ---------------------------------------------------------------- every step keeps the invariant

  lemma SendInOrder(f: Forward, accepted: seq<Byte>, written: seq<Byte>, data: seq<Byte>, appends: bool, writes: bool)
    requires InOrder(f, accepted, written) && (data != [] && Running(f) && f.connected ==> f.buffer == [])
    ensures var (f', sent) := SendSection(f, data, appends, writes);
            InOrder(f', if sent.Buffered? || sent.Written? then accepted + data else accepted,
                    if sent.Written? then written + data else written)
  {
    assert written + f.buffer + data == written + (f.buffer + data);
  }

  lemma FlushInOrder(f: Forward, accepted: seq<Byte>, written: seq<Byte>, writes: bool)
    requires InOrder(f, accepted, written)
    ensures var (f', flushed) := FlushSection(f, writes);
            InOrder(f', accepted, if flushed.Flushed? then written + f.buffer else written)
  {
  }

  lemma OthersKeepBytes(s: System, a: Action)
    requires Enabled(s, a) && !a.Send? && !a.Flush?
    ensures var t := Step(s, a);
            && t.accepted == s.accepted && t.written == s.written
            && (t.f.stopped || (t.f.buffer == s.f.buffer && !s.f.stopped))
  {
    if !a.Connect? && !a.AskStop? && !a.RunStop? && !a.MarkConnected? && !a.StopAfterFailure? {
      assert Step(s, a).f == s.f;
    }
  }

  lemma StepKeepsOrder(s: System, a: Action)
    requires InOrder(s.f, s.accepted, s.written) && Enabled(s, a) && !Overtakes(s, a)
    ensures var t := Step(s, a); InOrder(t.f, t.accepted, t.written)
  {
    if a.Send? {
      SendInOrder(s.f, s.accepted, s.written, a.data, a.appends, a.writes);
    } else if a.Flush? {
      FlushInOrder(s.f, s.accepted, s.written, a.writes);
    } else {
      OthersKeepBytes(s, a);
    }
  }

  lemma ConnectionStepKeeps(s: System, a: Action)
    requires Carries(s) && Enabled(s, a)
    requires a.Connect? || a.ReportConnection? || a.SubscribeReadable? || a.MarkConnected?
    ensures Carries(Step(s, a))
  {
  }

  lemma StopStepKeeps(s: System, a: Action)
    requires Carries(s) && Enabled(s, a)
    requires a.AskStop? || a.RunStop? || a.CancelStop? || a.StopAfterFailure? || a.Destroy?
    ensures Carries(Step(s, a))
  {
  }

  lemma DataStepKeeps(s: System, a: Action)
    requires Carries(s) && Enabled(s, a) && (a.Send? || a.Flush?)
    ensures Carries(Step(s, a))
  {
  }

  lemma ReadStepKeeps(s: System, a: Action)
    requires Carries(s) && Enabled(s, a) && (a.StartReading? || a.ReadChunk? || a.Deliver?)
    ensures Carries(Step(s, a))
  {
  }

  lemma StepKeepsCarries(s: System, a: Action)
    requires Carries(s) && Enabled(s, a)
    ensures Carries(Step(s, a))
  {
    if a.Connect? || a.ReportConnection? || a.SubscribeReadable? || a.MarkConnected? {
      ConnectionStepKeeps(s, a);
    } else if a.Send? || a.Flush? {
      DataStepKeeps(s, a);
    } else if a.StartReading? || a.ReadChunk? || a.Deliver? {
      ReadStepKeeps(s, a);
    } else {
      StopStepKeeps(s, a);
    }
  }

  lemma RunStopKeepsStops(s: System, a: Action)
    requires Safe(s) && Enabled(s, a) && (a.RunStop? || a.CancelStop?)
    ensures Stops(Step(s, a)) && CleanUps(Step(s, a))
  {
    assert s.stopTasks == multiset{a.notifyOwner};
    assert s.stopTasks - multiset{a.notifyOwner} == multiset{};
  }

  lemma RequestKeepsStops(s: System, notifyOwner: bool, error: int)
    requires Safe(s)
    ensures var t := RequestStop(s, notifyOwner, error); Stops(t) && CleanUps(t)
  {
    assert multiset{} + multiset{notifyOwner} == multiset{notifyOwner};
  }

  lemma StepKeepsStops(s: System, a: Action)
    requires Safe(s) && Enabled(s, a)
    ensures Stops(Step(s, a)) && CleanUps(Step(s, a))
  {
    match a
    case RunStop(_) => RunStopKeepsStops(s, a);
    case CancelStop(_) => RunStopKeepsStops(s, a);
    case AskStop(notifyOwner, error) => RequestKeepsStops(s, notifyOwner, error);
    case StopAfterFailure => RequestKeepsStops(s, true, s.loop.error);
    case Destroy => DestroyKeepsStops(s);
    case _ => OthersKeepStops(s, a);
  }

  lemma DestroyKeepsStops(s: System)
    requires Safe(s) && Enabled(s, Destroy)
    ensures Stops(Step(s, Destroy)) && CleanUps(Step(s, Destroy))
  {
  }

  lemma OthersKeepStops(s: System, a: Action)
    requires Enabled(s, a) && !a.RunStop? && !a.CancelStop? && !a.AskStop? && !a.StopAfterFailure? && !a.Destroy?
    ensures var t := Step(s, a);
            && t.winner == s.winner && t.stopTasks == s.stopTasks && t.destroyed == s.destroyed
            && t.socketCleanUps == s.socketCleanUps && t.bufferCleanUps == s.bufferCleanUps
            && t.f.stopRequested == s.f.stopRequested && t.f.stopped == s.f.stopped
            && t.f.socketInitialized == s.f.socketInitialized && t.f.sendBufferInitialized == s.f.sendBufferInitialized
  {
  }

  lemma OneMoreEvent(heard: seq<Event>, e: Event)
    ensures DeliveredBytes(heard + [e]) ==
            DeliveredBytes(heard) + match e { case Delivered(bytes) => bytes case Terminated(_) => [] }
  {
    assert (heard + [e])[..|heard|] == heard;
  }

  lemma RunStopKeepsDownstream(s: System, notifyOwner: bool)
    requires Safe(s) && Enabled(s, RunStop(notifyOwner))
    ensures Downstream(Step(s, RunStop(notifyOwner)))
  {
    assert s.stopTasks == multiset{s.winner.value};
    OneMoreEvent(s.heard, Terminated(s.reason));
    assert (s.heard + [Terminated(s.reason)])[..|s.heard|] == s.heard;
  }

  lemma ReadKeepsBytes(delivered: seq<Byte>, everything: seq<Byte>, end: Option<int>, answer: Read)
    ensures var loop := ReadOutcome(everything, end, answer);
            delivered + Pending(loop) ==
            if StopsReading(answer) then delivered + everything else delivered + everything + answer.bytes
  {
    if !StopsReading(answer) {
      assert delivered + everything + answer.bytes == delivered + (everything + answer.bytes);
    }
  }

  lemma ReadChunkKeepsDownstream(s: System, answer: Read)
    requires Safe(s) && Enabled(s, ReadChunk(answer))
    ensures Downstream(Step(s, ReadChunk(answer)))
  {
    ReadKeepsBytes(DeliveredBytes(s.heard), s.loop.everything, s.loop.end, answer);
    StepReadChunk(s, answer);
  }

  lemma StepReadChunk(s: System, answer: Read)
    requires Enabled(s, ReadChunk(answer))
    ensures Step(s, ReadChunk(answer)) ==
            s.(loop := ReadOutcome(s.loop.everything, s.loop.end, answer),
               incoming := if StopsReading(answer) then s.incoming else s.incoming + answer.bytes)
  {
  }

  lemma DeliverKeepsDownstream(s: System)
    requires Safe(s) && Enabled(s, Deliver)
    ensures Downstream(Step(s, Deliver))
  {
    OneMoreEvent(s.heard, Delivered(s.loop.everything));
    var t := Step(s, Deliver);
    assert Pending(t.loop) == [] && t.incoming == s.incoming && t.f == s.f && t.winner == s.winner;
  }

  lemma RequestKeepsHeard(s: System, notifyOwner: bool, error: int)
    ensures var t := RequestStop(s, notifyOwner, error);
            && t.heard == s.heard && t.incoming == s.incoming && t.loop == s.loop && t.f.stopped == s.f.stopped
            && (s.f.stopped ==> t.winner == s.winner && t.reason == s.reason)
  {
  }

  predicate Requests(a: Action) {
    a.AskStop? || a.StopAfterFailure?
  }

  predicate ForwardAction(a: Action) {
    a.Connect? || a.Send? || a.MarkConnected? || a.Flush?
  }

  predicate SameDownstream(s: System, t: System) {
    && t.heard == s.heard && t.incoming == s.incoming
    && t.f.stopped == s.f.stopped && t.winner == s.winner && t.reason == s.reason
  }

  lemma ForwardActionKeepsHeard(s: System, a: Action)
    requires Enabled(s, a) && ForwardAction(a)
    ensures SameDownstream(s, Step(s, a))
  {
  }

  lemma OthersKeepHeard(s: System, a: Action)
    requires Enabled(s, a) && !a.RunStop? && !a.ReadChunk? && !a.Deliver? && !Requests(a) && !ForwardAction(a)
    ensures SameDownstream(s, Step(s, a))
  {
    assert Step(s, a).f == s.f;
  }

  lemma OthersKeepPending(s: System, a: Action)
    requires Enabled(s, a) && !a.ReadChunk? && !a.Deliver?
    ensures Pending(Step(s, a).loop) == Pending(s.loop)
  {
  }

  lemma StepKeepsDownstream(s: System, a: Action)
    requires Safe(s) && Enabled(s, a)
    ensures Downstream(Step(s, a))
  {
    match a
    case RunStop(notifyOwner) => RunStopKeepsDownstream(s, notifyOwner);
    case ReadChunk(answer) => ReadChunkKeepsDownstream(s, answer);
    case Deliver => DeliverKeepsDownstream(s);
    case AskStop(notifyOwner, error) =>
      RequestKeepsHeard(s, notifyOwner, error);
      OthersKeepPending(s, a);
    case StopAfterFailure =>
      RequestKeepsHeard(s, true, s.loop.error);
      OthersKeepPending(s, a);
    case _ =>
      if ForwardAction(a) {
        ForwardActionKeepsHeard(s, a);
      } else {
        OthersKeepHeard(s, a);
      }
      OthersKeepPending(s, a);
  }

  lemma StepKeepsSafe(s: System, a: Action)
    requires Safe(s) && Enabled(s, a)
    ensures Safe(Step(s, a))
  {
    StepKeepsCarries(s, a);
    StepKeepsStops(s, a);
    StepKeepsDownstream(s, a);
  }

  lemma {:induction false} RunKeepsSafe(s: System, actions: seq<Action>)
    requires Safe(s) && Runs(s, actions)
    ensures Safe(After(s, actions))
    decreases |actions|
  {
    if actions != [] {
      StepKeepsSafe(s, actions[0]);
      RunKeepsSafe(Step(s, actions[0]), actions[1..]);
    }
  }

  lemma {:induction false} RunKeeps(s: System, actions: seq<Action>)
    requires Inv(s) && Runs(s, actions) && Orderly(s, actions)
    ensures Inv(After(s, actions))
    decreases |actions|
  {
    if actions != [] {
      StepKeepsOrder(s, actions[0]);
      StepKeepsSafe(s, actions[0]);
      RunKeeps(Step(s, actions[0]), actions[1..]);
    }
  }

  lemma ReachableSafe(s: System)
    requires Reachable(s)
    ensures Safe(s)
  {
    var socketReady, bufferReady, actions :| ReachedBy(s, socketReady, bufferReady, actions);
    RunKeepsSafe(Init(socketReady, bufferReady), actions);
  }

  lemma ReachableInv(s: System)
    requires ReachableInOrder(s)
    ensures Inv(s)
  {
    var socketReady, bufferReady, actions :|
      ReachedBy(s, socketReady, bufferReady, actions) && Orderly(Init(socketReady, bufferReady), actions);
    RunKeeps(Init(socketReady, bufferReady), actions);
  }

  // ---------------------------------------------------------------- from the tunnel to the socket

  lemma StepIsOrderly(s: System, a: Action)
    requires Safe(s) && Enabled(s, a) && (a.Send? ==> s.loop.Idle?)
    ensures !Overtakes(s, a)
  {
  }

  /** Sends that fall between two callbacks overtake nothing, however the callbacks and stops of a run are mixed. */
  lemma {:induction false} SerializedIsOrderly(s: System, actions: seq<Action>)
    requires Safe(s) && Runs(s, actions) && Serialized(s, actions)
    ensures Orderly(s, actions)
    decreases |actions|
  {
    if actions != [] {
      StepIsOrderly(s, actions[0]);
      StepKeepsSafe(s, actions[0]);
      SerializedIsOrderly(Step(s, actions[0]), actions[1..]);
    }
  }

  lemma IdleHasWritten(s: System)
    requires Inv(s) && s.loop.Idle? && s.f.connected && Running(s.f)
    ensures s.f.buffer == [] && s.written == s.accepted
  {
    assert s.written + [] == s.written;
  }

  /**
   On one event loop no byte is lost, repeated or reordered, and the buffer keeps its limit, over every run from the
   start and with stops from any thread; a connection between two callbacks has written everything it accepted.
   */
  lemma SerializedBytesArriveInOrder(socketReady: bool, bufferReady: bool, actions: seq<Action>)
    requires Runs(Init(socketReady, bufferReady), actions) && Serialized(Init(socketReady, bufferReady), actions)
    ensures var s := After(Init(socketReady, bufferReady), actions);
            && (!s.f.stopped ==> s.accepted == s.written + s.f.buffer)
            && s.written <= s.accepted
            && |s.f.buffer| <= MAX_SEND_BUFFER_SIZE
            && (s.loop.Idle? && s.f.connected && Running(s.f) ==> s.written == s.accepted)
  {
    SerializedIsOrderly(Init(socketReady, bufferReady), actions);
    RunKeeps(Init(socketReady, bufferReady), actions);
    var s := After(Init(socketReady, bufferReady), actions);
    if s.loop.Idle? && s.f.connected && Running(s.f) {
      IdleHasWritten(s);
    }
  }

  /** The same from any thread, as long as no send overtakes a buffer that is not flushed. */
  lemma BytesArriveInOrder(s: System)
    requires ReachableInOrder(s)
    ensures !s.f.stopped ==> s.accepted == s.written + s.f.buffer
    ensures s.written <= s.accepted
    ensures |s.f.buffer| <= MAX_SEND_BUFFER_SIZE
  {
    ReachableInv(s);
  }

  /** After the flush of a running connection nothing waits in the buffer, and everything accepted is written. */
  lemma FlushEmptiesBuffer(s: System)
    requires ReachableInOrder(s) && Enabled(s, Flush(true, 0)) && Running(s.f) && s.f.connected
    ensures var t := Step(s, Flush(true, 0)); t.f.buffer == [] && t.written == t.accepted == s.accepted
  {
    ReachableInv(s);
  }

  /** Between two callbacks nothing can be overtaken: calls on the event loop keep the order by themselves. */
  lemma LoopKeepsOrder(s: System, data: seq<Byte>, appends: bool, writes: bool, error: int)
    requires ReachableInOrder(s) && s.loop.Idle?
    ensures !Overtakes(s, Send(data, appends, writes, error))
    ensures s.f.connected && Running(s.f) ==> s.f.buffer == [] && s.written == s.accepted
  {
    ReachableInv(s);
    assert s.written + [] == s.written;
  }

  /** Any data may be sent over a connection without disorder if and only if its buffer has been flushed. */
  lemma SendsKeepOrderIff(s: System)
    requires ReachableInOrder(s) && !s.destroyed && Running(s.f) && s.f.connected
    ensures (forall data :: SendKeepsOrder(s, data)) <==> s.f.buffer == []
  {
    ReachableInv(s);
    if s.f.buffer == [] {
      forall data ensures SendKeepsOrder(s, data) {
        StepKeepsOrder(s, Send(data, true, true, 0));
      }
    } else {
      var other: Byte := if s.f.buffer[0] == 0 then 1 else 0;
      var t := Step(s, Send([other], true, true, 0));
      assert t.written[|s.written|] == other && t.accepted[|s.written|] == s.f.buffer[0];
      assert !SendKeepsOrder(s, [other]);
    }
  }

  predicate SendKeepsOrder(s: System, data: seq<Byte>)
    requires !s.destroyed
  {
    var t := Step(s, Send(data, true, true, 0)); InOrder(t.f, t.accepted, t.written)
  }

  /** Another thread sends between the marking and the flush, and its byte arrives first. */
  lemma EarlySendReorders() returns (s: System, actions: seq<Action>)
    ensures Runs(Init(true, true), actions) && After(Init(true, true), actions) == s
    ensures s.accepted == [1, 2] && s.written == [2, 1] && !s.f.stopped
  {
    var s5 := Step(Marked(), MarkConnected);
    var s6 := Step(s5, Send([2], true, true, 0));
    s := Step(s6, Flush(true, 0));
    actions := RunOf(s6, Flush(true, 0), [], s);
    actions := RunOf(s5, Send([2], true, true, 0), actions, s);
    actions := RunOf(Marked(), MarkConnected, actions, s);
    actions := RunToMarked(actions, s);
  }

  function Marked(): System {
    var f := Fresh(true, true).(hasEventLoop := true, connectStarted := true, keepAlive := true, buffer := [1]);
    Init(true, true).(f := f, loop := Marking, readable := true, accepted := [1])
  }

  lemma RunToMarked(rest: seq<Action>, end: System) returns (actions: seq<Action>)
    requires Runs(Marked(), rest) && After(Marked(), rest) == end
    ensures Runs(Init(true, true), actions) && After(Init(true, true), actions) == end
  {
    var s0 := Init(true, true);
    var s1 := Step(s0, Connect(true, true));
    var s2 := Step(s1, Send([1], true, true, 0));
    var s3 := Step(s2, ReportConnection(0));
    var s4 := Step(s3, SubscribeReadable(0));
    assert s4 == Marked();
    actions := RunOf(s3, SubscribeReadable(0), rest, end);
    actions := RunOf(s2, ReportConnection(0), actions, end);
    actions := RunOf(s1, Send([1], true, true, 0), actions, end);
    actions := RunOf(s0, Connect(true, true), actions, end);
  }

  /** Puts one step in front of a run. */
  lemma RunOf(s: System, a: Action, rest: seq<Action>, end: System) returns (actions: seq<Action>)
    requires Enabled(s, a) && Runs(Step(s, a), rest) && After(Step(s, a), rest) == end
    ensures actions == [a] + rest && Runs(s, actions) && After(s, actions) == end
  {
    actions := [a] + rest;
    assert actions[1..] == rest;
  }

  /** What is accepted, written and buffered: a connection writes through, before it the buffer takes what fits. */
  lemma SendLeadsTo(s: System, data: seq<Byte>, appends: bool, writes: bool, error: int)
    requires Enabled(s, Send(data, appends, writes, error))
    ensures var t := Step(s, Send(data, appends, writes, error));
            var through := Running(s.f) && s.f.connected && (data == [] || writes);
            var kept := Running(s.f) && !s.f.connected && appends && |s.f.buffer| + |data| <= 63 * 1024;
            && t.accepted == (if through || kept then s.accepted + data else s.accepted)
            && t.written == (if through then s.written + data else s.written)
            && t.f == (if kept then s.f.(buffer := s.f.buffer + data) else s.f)
            && t.loop == (if s.loop.Idle? && Running(s.f) && !through && !kept then Failing(error) else s.loop)
  {
  }

  /** A connect is under way exactly if this is the first one on a ready, running forward and the socket takes it. */
  lemma ConnectLeadsTo(s: System, hasLoop: bool, submitted: bool)
    requires Enabled(s, Connect(hasLoop, submitted)) && !s.resultDue
    ensures Step(s, Connect(hasLoop, submitted)).resultDue <==>
            s.f.socketInitialized && s.f.sendBufferInitialized && !s.f.connectStarted && Running(s.f) &&
            hasLoop && submitted
  {
  }

  /** The connection callback takes a running forward to a flush, and the flush writes the buffer or fails. */
  lemma ConnectionLeadsTo(s: System)
    ensures Enabled(s, ReportConnection(0)) ==>
              Step(s, ReportConnection(0)).loop == if Running(s.f) then Subscribing else Idle
    ensures Enabled(s, SubscribeReadable(0)) ==>
              Step(s, SubscribeReadable(0)).loop.Marking? && Step(s, SubscribeReadable(0)).readable
    ensures Enabled(s, MarkConnected) && Running(s.f) ==>
              Step(s, MarkConnected).f.connected && Step(s, MarkConnected).loop.Flushing?
    ensures Enabled(s, Flush(false, 0)) && Running(s.f) && s.f.connected && s.f.buffer != [] ==>
              Step(s, Flush(false, 0)) == s.(loop := Failing(0))
  {
  }

  // ---------------------------------------------------------------- from the socket to the tunnel

  /**
   Every byte that was read has been delivered in order or waits for the delivery of its own readable event, whatever
   other threads do; and the end, if the owner is told of it, is the last it hears.
   */
  lemma ReadBytesAreDelivered(s: System)
    requires Reachable(s)
    ensures DeliveredBytes(s.heard) + Pending(s.loop) == s.incoming
    ensures if s.f.stopped && s.winner == Some(true) then Ended(s.heard, s.reason) else OnlyDeliveries(s.heard)
  {
    ReachableSafe(s);
  }

  lemma StepAfterStop(s: System, a: Action)
    requires Safe(s) && s.f.stopped && Enabled(s, a)
    ensures Step(s, a).heard == s.heard && Step(s, a).f.stopped
  {
  }

  /** Once the forward has stopped the owner hears nothing more, over any run. */
  lemma {:induction false} NothingAfterEnd(s: System, actions: seq<Action>)
    requires Safe(s) && s.f.stopped && Runs(s, actions)
    ensures After(s, actions).heard == s.heard
    decreases |actions|
  {
    if actions != [] {
      StepAfterStop(s, actions[0]);
      StepKeepsSafe(s, actions[0]);
      NothingAfterEnd(Step(s, actions[0]), actions[1..]);
    }
  }

  /**
   A failure, or the end of the stream after its last bytes, is reported with its error exactly if no other stop
   request has come first; the delivery of the bytes does not depend on that.
   */
  lemma FailureIsReported(s: System)
    requires Reachable(s) && Enabled(s, StopAfterFailure)
    ensures var t := Step(s, StopAfterFailure);
            if Running(s.f) then
              Enabled(t, RunStop(true)) && Step(t, RunStop(true)).heard == s.heard + [Terminated(s.loop.error)]
            else t.winner == s.winner && t.stopTasks == s.stopTasks && t.heard == s.heard
  {
    ReachableSafe(s);
  }

  /** The reads of one event, with nothing in between, drain what the read loop drains. */
  lemma {:induction false} EventDrains(s: System, answers: seq<Read>)
    requires !s.destroyed && s.loop.Reading? && answers != []
    requires StopsReading(answers[|answers| - 1])
    requires forall i :: 0 <= i < |answers| - 1 ==> !StopsReading(answers[i])
    ensures Runs(s, Reads(answers))
    ensures var (bytes, end) := Drain(answers);
            After(s, Reads(answers)) ==
            s.(loop := Delivering(s.loop.everything + bytes, if end.Some? then end else s.loop.end),
               incoming := s.incoming + bytes)
    decreases |answers|
  {
    var t := Step(s, ReadChunk(answers[0]));
    StepReadChunk(s, answers[0]);
    assert Reads(answers)[1..] == Reads(answers[1..]);
    if |answers| > 1 {
      EventDrains(t, answers[1..]);
      var bytes := Drain(answers[1..]).0;
      Regroup(s.loop.everything, answers[0].bytes, bytes);
      Regroup(s.incoming, answers[0].bytes, bytes);
    } else {
      assert Reads(answers[1..]) == [];
      assert s.loop.everything + [] == s.loop.everything && s.incoming + [] == s.incoming;
    }
  }

  lemma Regroup(a: seq<Byte>, b: seq<Byte>, c: seq<Byte>)
    ensures a + b + c == a + (b + c)
  {
  }

  // ---------------------------------------------------------------- one event without interruption

  lemma {:induction false} RunsConcat(s: System, a: seq<Action>, b: seq<Action>)
    requires Runs(s, a) && Runs(After(s, a), b)
    ensures Runs(s, a + b) && After(s, a + b) == After(After(s, a), b)
    decreases |a|
  {
    if a == [] {
      assert a + b == b;
    } else {
      assert (a + b)[1..] == a[1..] + b;
      RunsConcat(Step(s, a[0]), a[1..], b);
    }
  }

  predicate CanRead(s: System) {
    !s.destroyed && !s.f.stopped && Running(s.f)
  }

  lemma FailureRun(s: System) returns (actions: seq<Action>)
    requires CanRead(s) && s.loop.Failing?
    ensures Runs(s, actions) && After(s, actions).heard == s.heard + [Terminated(s.loop.error)]
  {
    var t1 := Step(s, StopAfterFailure);
    var t2 := Step(t1, RunStop(true));
    actions := RunOf(t1, RunStop(true), [], t2);
    actions := RunOf(s, StopAfterFailure, actions, t2);
  }

  lemma DeliveryRun(s: System) returns (actions: seq<Action>)
    requires CanRead(s) && s.loop.Delivering?
    ensures Runs(s, actions)
    ensures After(s, actions).heard ==
            s.heard + (if s.loop.everything == [] then [] else [Delivered(s.loop.everything)]) +
            match s.loop.end { case Some(error) => [Terminated(error)] case None => [] }
  {
    var t := Step(s, Deliver);
    if s.loop.end.Some? {
      actions := FailureRun(t);
      actions := RunOf(s, Deliver, actions, After(t, actions));
    } else {
      actions := RunOf(s, Deliver, [], t);
    }
  }

  lemma ReadingRun(s: System, answers: seq<Read>) returns (actions: seq<Action>)
    requires CanRead(s) && s.loop.Reading? && s.loop.everything == []
    requires answers != [] && StopsReading(answers[|answers| - 1])
    requires forall i :: 0 <= i < |answers| - 1 ==> !StopsReading(answers[i])
    ensures Runs(s, actions)
    ensures var (bytes, end) := Drain(answers);
            After(s, actions).heard == HeardAfter(s.heard, bytes, if end.Some? then end else s.loop.end)
  {
    EventDrains(s, answers);
    var u := After(s, Reads(answers));
    var bytes := Drain(answers).0;
    assert [] + bytes == bytes && u.loop.everything == bytes;
    actions := DeliveryRun(u);
    RunsConcat(s, Reads(answers), actions);
    actions := Reads(answers) + actions;
  }

  function HeardAfter(heard: seq<Event>, bytes: seq<Byte>, end: Option<int>): seq<Event> {
    heard + (if bytes == [] then [] else [Delivered(bytes)]) +
    match end { case Some(error) => [Terminated(error)] case None => [] }
  }

  lemma EventHeard(heard: seq<Event>, f: Forward, error: int, bytes: seq<Byte>, end: Option<int>, answers: seq<Read>)
    requires (error == 0 || error == SOCKET_CLOSED) && Running(f) && Drain(answers) == (bytes, end)
    ensures heard + Heard(f, error, answers) ==
            HeardAfter(heard, bytes, if end.Some? then end else if error == 0 then None else Some(SOCKET_CLOSED))
  {
  }

  /** A readable event that no other thread interrupts tells the owner exactly what the atomic event tells it. */
  lemma EventRun(s: System, error: int, answers: seq<Read>) returns (actions: seq<Action>)
    requires CanRead(s) && s.loop.Idle? && s.readable
    requires answers != [] && StopsReading(answers[|answers| - 1])
    requires forall i :: 0 <= i < |answers| - 1 ==> !StopsReading(answers[i])
    ensures Runs(s, actions) && After(s, actions).heard == s.heard + Heard(s.f, error, answers)
  {
    var t := Step(s, StartReading(error));
    if error != 0 && error != SOCKET_CLOSED {
      actions := FailureRun(t);
    } else {
      actions := ReadingRun(t, answers);
      EventHeard(s.heard, s.f, error, Drain(answers).0, Drain(answers).1, answers);
    }
    actions := RunOf(s, StartReading(error), actions, After(t, actions));
  }

  function Reads(answers: seq<Read>): (actions: seq<Action>)
    ensures |actions| == |answers|
  {
    if answers == [] then [] else [ReadChunk(answers[0])] + Reads(answers[1..])
  }

  // ---------------------------------------------------------------- the end

  /** How often the owner has been told of the end. */
  function Terminations(heard: seq<Event>): nat {
    if heard == [] then 0
    else Terminations(heard[..|heard| - 1]) + Count(heard[|heard| - 1].Terminated?)
  }

  lemma {:induction false} DeliveriesDoNotTerminate(heard: seq<Event>)
    requires OnlyDeliveries(heard)
    ensures Terminations(heard) == 0
  {
    if heard != [] {
      DeliveriesDoNotTerminate(heard[..|heard| - 1]);
    }
  }

  lemma TerminationsOf(s: System)
    requires Safe(s)
    ensures Terminations(s.heard) == Count(s.f.stopped && s.winner == Some(true))
  {
    if s.f.stopped && s.winner == Some(true) {
      DeliveriesDoNotTerminate(s.heard[..|s.heard| - 1]);
    } else {
      DeliveriesDoNotTerminate(s.heard);
    }
  }

  /** The owner hears of the end at most once, and exactly if the stop request that came first was one that reports. */
  lemma TerminatedAtMostOnce(s: System)
    requires Reachable(s)
    ensures Terminations(s.heard) <= 1
    ensures Terminations(s.heard) == 1 <==> s.f.stopped && s.winner == Some(true)
  {
    ReachableSafe(s);
    TerminationsOf(s);
  }

  lemma StepKeepsWinner(s: System, a: Action)
    requires Safe(s) && Enabled(s, a) && s.winner.Some?
    ensures Step(s, a).winner == s.winner && Step(s, a).reason == s.reason
  {
  }

  /** Whatever follows the first stop request, it decides whether the owner is told, and with which error. */
  lemma {:induction false} WinnerStays(s: System, actions: seq<Action>)
    requires Safe(s) && Runs(s, actions) && s.winner.Some?
    ensures var t := After(s, actions);
            && t.winner == s.winner && t.reason == s.reason
            && Terminations(t.heard) == Count(t.f.stopped && s.winner.value)
            && (Terminations(t.heard) == 1 ==> t.heard[|t.heard| - 1] == Terminated(s.reason))
    decreases |actions|
  {
    if actions == [] {
      TerminationsOf(s);
    } else {
      StepKeepsWinner(s, actions[0]);
      StepKeepsSafe(s, actions[0]);
      WinnerStays(Step(s, actions[0]), actions[1..]);
    }
  }

  lemma CleanedUpAtMostOnce(s: System)
    requires Reachable(s)
    ensures s.socketCleanUps <= 1 && s.bufferCleanUps <= 1
  {
    ReachableSafe(s);
  }

  /** Every resource is still there or has been released, and a destroyed forward has released all. */
  predicate Released(s: System, sockets: nat, buffers: nat) {
    && s.socketCleanUps + (if s.destroyed then 0 else Count(s.f.socketInitialized)) == sockets
    && s.bufferCleanUps + (if s.destroyed then 0 else Count(s.f.sendBufferInitialized)) == buffers
    && (s.f.hasEventLoop && !s.f.stopped ==> s.f.keepAlive)
  }

  predicate SameResources(s: System, t: System) {
    && t.socketCleanUps == s.socketCleanUps && t.bufferCleanUps == s.bufferCleanUps && t.destroyed == s.destroyed
    && t.f.socketInitialized == s.f.socketInitialized && t.f.sendBufferInitialized == s.f.sendBufferInitialized
    && (t.f.hasEventLoop && !t.f.stopped ==> t.f.keepAlive || (s.f.hasEventLoop && !s.f.stopped && !s.f.keepAlive))
  }

  lemma RequestsKeepResources(s: System, a: Action)
    requires Enabled(s, a) && (a.Connect? || a.AskStop? || a.StopAfterFailure?)
    ensures SameResources(s, Step(s, a))
  {
  }

  lemma DataKeepsResources(s: System, a: Action)
    requires Enabled(s, a) && (a.Send? || a.Flush? || a.MarkConnected?)
    ensures SameResources(s, Step(s, a))
  {
  }

  lemma OthersKeepResources(s: System, a: Action)
    requires Enabled(s, a) && !a.Connect? && !a.AskStop? && !a.StopAfterFailure? && !a.Send? && !a.Flush?
    requires !a.MarkConnected? && !a.RunStop? && !a.Destroy?
    ensures SameResources(s, Step(s, a))
  {
    assert Step(s, a).f == s.f;
  }

  lemma StepKeepsReleased(s: System, a: Action, sockets: nat, buffers: nat)
    requires CleanUps(s) && Released(s, sockets, buffers) && Enabled(s, a)
    ensures Released(Step(s, a), sockets, buffers)
  {
    if a.Connect? || a.AskStop? || a.StopAfterFailure? {
      RequestsKeepResources(s, a);
    } else if a.Send? || a.Flush? || a.MarkConnected? {
      DataKeepsResources(s, a);
    } else if !a.RunStop? && !a.Destroy? {
      OthersKeepResources(s, a);
    } else {
      EndKeepsReleased(s, a, sockets, buffers);
    }
  }

  lemma EndKeepsReleased(s: System, a: Action, sockets: nat, buffers: nat)
    requires CleanUps(s) && Released(s, sockets, buffers) && Enabled(s, a) && (a.RunStop? || a.Destroy?)
    ensures Released(Step(s, a), sockets, buffers)
  {
  }

  lemma {:induction false} RunKeepsReleased(s: System, actions: seq<Action>, sockets: nat, buffers: nat)
    requires Safe(s) && Released(s, sockets, buffers) && Runs(s, actions)
    ensures Released(After(s, actions), sockets, buffers)
    decreases |actions|
  {
    if actions != [] {
      StepKeepsReleased(s, actions[0], sockets, buffers);
      StepKeepsSafe(s, actions[0]);
      RunKeepsReleased(Step(s, actions[0]), actions[1..], sockets, buffers);
    }
  }

  /**
   Over every run from the start, a socket or buffer that was made is there as long as it has not been released; a
   forward that has stopped, and one that has been destroyed, has released each exactly once.
   */
  lemma ReleasedExactlyOnce(socketReady: bool, bufferReady: bool, actions: seq<Action>)
    requires Runs(Init(socketReady, bufferReady), actions)
    ensures var s := After(Init(socketReady, bufferReady), actions);
            && (!s.destroyed ==>
                  && s.socketCleanUps + Count(s.f.socketInitialized) == Count(socketReady)
                  && s.bufferCleanUps + Count(s.f.sendBufferInitialized) == Count(socketReady && bufferReady))
            && (s.destroyed || s.f.stopped ==>
                  s.socketCleanUps == Count(socketReady) && s.bufferCleanUps == Count(socketReady && bufferReady))
  {
    var s0 := Init(socketReady, bufferReady);
    RunKeepsSafe(s0, actions);
    RunKeepsReleased(s0, actions, Count(socketReady), Count(socketReady && bufferReady));
  }

  /** What the destructor adds: the buffer if it is left, and the socket if it is left and no event loop has it. */
  lemma DestroyLeadsTo(s: System)
    requires Enabled(s, Destroy)
    ensures var t := Step(s, Destroy);
            && t.socketCleanUps == s.socketCleanUps + Count(s.f.socketInitialized && !s.f.hasEventLoop)
            && t.bufferCleanUps == s.bufferCleanUps + Count(s.f.sendBufferInitialized)
  {
  }

  predicate Connects(s: System, a: Action) {
    a.Connect? && ConnectSection(s.f, a.hasLoop, a.submitted).1
  }

  function Connections(s: System, actions: seq<Action>): nat
    requires Runs(s, actions)
    decreases |actions|
  {
    if actions == [] then 0 else Count(Connects(s, actions[0])) + Connections(Step(s, actions[0]), actions[1..])
  }

  lemma StepConnects(s: System, a: Action)
    requires Enabled(s, a)
    ensures Connects(s, a) ==> !s.f.connectStarted && Running(s.f)
    ensures s.f.connectStarted || Connects(s, a) ==> Step(s, a).f.connectStarted
  {
  }

  /** The socket is connected at most once, however often Connect is called. */
  lemma {:induction false} ConnectsAtMostOnce(s: System, actions: seq<Action>)
    requires Runs(s, actions)
    ensures Connections(s, actions) <= Count(!s.f.connectStarted)
    decreases |actions|
  {
    if actions != [] {
      StepConnects(s, actions[0]);
      ConnectsAtMostOnce(Step(s, actions[0]), actions[1..]);
    }
  }
}

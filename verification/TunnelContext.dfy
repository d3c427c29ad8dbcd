/**
 One secure tunnel and its shutdown protocol.

 `Context` holds what `mLifecycleLock` guards in source/tunneling/SecureTunnelingContext.cpp; the functions are its
 critical sections and the class `SecureTunnelingContext` runs them on mutable fields.  `Tunnel` adds the threads
 and event-loop tasks that are between two sections.  Forwards are named by numbers that are never used twice.
 */
module TunnelContext {

  import opened Options

  datatype Context = Context(
    held: bool,              // mSecureTunnel is set
    keepAlive: bool,         // mLifetimeKeepAlive is set
    stopRequested: bool,
    connectInProgress: bool,
    stopQueued: bool,
    stopTaskScheduled: bool,
    stopped: bool,
    forward: Option<nat>)    // mTcpForward

  const FRESH := Context(false, false, false, false, false, false, false, None)

  function BeginConnect(c: Context): (Context, bool) {
    if c.stopRequested then (c, false) else (c.(held := true, connectInProgress := true), true)
  }

  /** The second result tells the connecting thread to stop the tunnel at once. */
  function EndConnect(c: Context, success: bool): (Context, bool) {
    var ended := c.(connectInProgress := false);
    if success then
      (ended, c.stopRequested)
    else if c.stopRequested then
      (ended.(held := false, stopped := true, keepAlive := false), false)
    else
      (ended.(held := false), false)
  }

  predicate StopNeedsNoTask(c: Context) {
    c.connectInProgress || c.stopQueued || c.stopTaskScheduled || c.stopped || !c.held
  }

  function RequestStop(c: Context): (Context, bool) {
    var requested := c.(stopRequested := true, keepAlive := c.keepAlive || c.held);
    (requested, !StopNeedsNoTask(requested))
  }

  function ScheduleSection(c: Context): (Context, bool) {
    if StopNeedsNoTask(c) then (c, false) else (c.(stopTaskScheduled := true), true)
  }

  function QueueSection(c: Context): (Context, bool) {
    var cleared := c.(stopTaskScheduled := false);
    if c.stopQueued || c.stopped || !c.held then (cleared, false) else (cleared.(stopQueued := true), true)
  }

  function StoppedSection(c: Context): (Context, bool) {
    if c.stopped then (c, false) else (c.(stopped := true, keepAlive := true), true)
  }

  function ReleaseSection(c: Context): Context {
    c.(held := false, keepAlive := false)
  }

  function InstallForward(c: Context, forward: nat): (Context, bool) {
    if c.stopRequested || c.stopped then (c, false) else (c.(forward := Some(forward)), true)
  }

  function ForwardTerminated(c: Context, forward: nat): (Context, bool) {
    if c.forward != Some(forward) then (c, false) else (c.(forward := None), true)
  }

  predicate MayReset(c: Context) {
    !c.stopRequested && !c.stopped && c.held
  }

  class SecureTunnelingContext {
    var mSecureTunnel: bool
    var mLifetimeKeepAlive: bool
    var mStopRequested: bool
    var mConnectInProgress: bool
    var mStopQueued: bool
    var mStopTaskScheduled: bool
    var mStopped: bool
    var mTcpForward: Option<nat>

    ghost function View(): Context
      reads this
    {
      Context(mSecureTunnel, mLifetimeKeepAlive, mStopRequested, mConnectInProgress, mStopQueued,
              mStopTaskScheduled, mStopped, mTcpForward)
    }

    constructor ()
      ensures View() == FRESH
    {
      mSecureTunnel, mLifetimeKeepAlive, mStopRequested, mConnectInProgress := false, false, false, false;
      mStopQueued, mStopTaskScheduled, mStopped, mTcpForward := false, false, false, None;
    }

    method StartConnecting() returns (connect: bool)
      modifies this
      ensures (View(), connect) == BeginConnect(old(View()))
      ensures connect <==> !View().stopRequested
      ensures connect ==> View().held && View().connectInProgress
      ensures connect ==> View().stopped == old(View()).stopped && View().keepAlive == old(View()).keepAlive
      ensures !connect ==> View() == old(View())
    {
      if mStopRequested {
        return false;
      }
      mSecureTunnel := true;
      mConnectInProgress := true;
      return true;
    }

    method FinishConnecting(connectionSuccess: bool) returns (stopAfterConnect: bool)
      modifies this
      ensures (View(), stopAfterConnect) == EndConnect(old(View()), connectionSuccess)
      ensures !View().connectInProgress && View().stopRequested == old(View()).stopRequested
      ensures connectionSuccess ==> View() == old(View()).(connectInProgress := false)
      ensures !connectionSuccess && !View().stopRequested ==>
                View() == old(View()).(connectInProgress := false, held := false)
      ensures stopAfterConnect <==> connectionSuccess && View().stopRequested
      ensures !connectionSuccess ==> !View().held && (View().stopRequested ==> View().stopped && !View().keepAlive)
    {
      stopAfterConnect := false;
      mConnectInProgress := false;
      if !connectionSuccess {
        mSecureTunnel := false;
        if mStopRequested {
          mStopped := true;
          mLifetimeKeepAlive := false;
        }
      } else if mStopRequested {
        stopAfterConnect := true;
      }
    }

    method StopSecureTunnel() returns (schedule: bool)
      modifies this
      ensures (View(), schedule) == RequestStop(old(View()))
      ensures View().stopRequested && (View().held ==> View().keepAlive)
      ensures schedule <==> View().held && !View().stopped && !View().connectInProgress &&
                            !View().stopTaskScheduled && !View().stopQueued
    {
      mStopRequested := true;
      if mSecureTunnel && !mLifetimeKeepAlive {
        mLifetimeKeepAlive := true;
      }
      if mConnectInProgress || mStopQueued || mStopTaskScheduled || mStopped || !mSecureTunnel {
        return false;
      }
      return true;
    }

    method ScheduleStop() returns (schedule: bool)
      modifies this
      ensures (View(), schedule) == ScheduleSection(old(View()))
      ensures schedule <==> mSecureTunnel && !mStopped && !mConnectInProgress && !mStopQueued &&
                            !old(mStopTaskScheduled)
      ensures View() == old(View()).(stopTaskScheduled := old(mStopTaskScheduled) || schedule)
      ensures schedule ==> !old(View()).stopTaskScheduled && View().stopTaskScheduled
      ensures schedule ==> View().held && !View().stopped && !View().connectInProgress && !View().stopQueued
      ensures !schedule ==> View() == old(View())
    {
      if mConnectInProgress || mStopQueued || mStopTaskScheduled || mStopped || !mSecureTunnel {
        return false;
      }
      mStopTaskScheduled := true;
      return true;
    }

    method QueueStop() returns (close: bool)
      modifies this
      ensures (View(), close) == QueueSection(old(View()))
      ensures close <==> mSecureTunnel && !mStopped && !old(mStopQueued)
      ensures View() == old(View()).(stopTaskScheduled := false, stopQueued := old(mStopQueued) || close)
      ensures !View().stopTaskScheduled
      ensures close ==> !old(View()).stopQueued && View().stopQueued && View().held && !View().stopped
    {
      mStopTaskScheduled := false;
      if mStopQueued || mStopped || !mSecureTunnel {
        return false;
      }
      mStopQueued := true;
      return true;
    }

    method OnStopped() returns (first: bool)
      modifies this
      ensures (View(), first) == StoppedSection(old(View()))
      ensures View().stopped && (first <==> !old(View()).stopped) && (first ==> View().keepAlive)
    {
      if mStopped {
        return false;
      }
      mStopped := true;
      if !mLifetimeKeepAlive {
        mLifetimeKeepAlive := true;
      }
      return true;
    }

    method ReleaseAfterStopped()
      modifies this
      ensures View() == ReleaseSection(old(View()))
      ensures !mSecureTunnel && !mLifetimeKeepAlive
      ensures mStopped == old(mStopped) && mStopRequested == old(mStopRequested)
    {
      mSecureTunnel := false;
      mLifetimeKeepAlive := false;
    }

    method StopTcpForward() returns (forward: Option<nat>)
      modifies this
      ensures View() == old(View()).(forward := None) && forward == old(View()).forward
    {
      forward := mTcpForward;
      mTcpForward := None;
    }

    method AdoptTcpForward(forward: nat) returns (shouldConnect: bool)
      modifies this
      ensures (View(), shouldConnect) == InstallForward(old(View()), forward)
      ensures shouldConnect <==> !mStopRequested && !mStopped
      ensures shouldConnect ==> View().forward == Some(forward) && !View().stopRequested && !View().stopped
      ensures !shouldConnect ==> View() == old(View())
    {
      shouldConnect := !mStopRequested && !mStopped;
      if shouldConnect {
        mTcpForward := Some(forward);
      }
    }

    method OnTcpForwardTerminated(forward: nat) returns (reset: bool)
      modifies this
      ensures (View(), reset) == ForwardTerminated(old(View()), forward)
      ensures reset <==> old(mTcpForward) == Some(forward)
      ensures reset ==> View() == old(View()).(forward := None)
      ensures View().forward != Some(forward) && (!reset ==> View() == old(View()))
    {
      if mTcpForward != Some(forward) {
        return false;
      }
      mTcpForward := None;
      return true;
    }
  }

  // ---------------------------------------------------------------- the threads of one tunnel

  /** The single call of ConnectToSecureTunnel. */
  datatype Connect = NotCalled | Created | InSdk | Returned(success: bool) | StopAfter | Done(result: bool)

  /** The stream callback that the event loop is running; the loop runs one at a time. */
  datatype Stream =
    | Idle
    | Creating
    | Adopting(forward: nat)
    | ConnectingForward(forward: nat)
    | Ending(forward: nat)
    | CheckingReset
    | SendingReset

  datatype Tunnel = Tunnel(
    c: Context,
    validPort: bool,
    connect: Connect,
    stream: Stream,
    nextForward: nat,
    stopCalls: nat,       // threads about to enter ScheduleStop
    scheduling: nat,      // threads inside ScheduleLifecycleTask for a stop
    scheduleFailed: nat,  // threads about to clear the flag after a failure
    tasks: nat,           // pending QueueStop tasks
    closing: nat,         // tasks inside the SDK close
    closeFailed: nat,     // tasks about to clear the flag after a refused close
    stoppedCalls: nat,    // OnStopped callbacks past their section, the owner not told yet
    releasing: nat,       // OnStopped callbacks that have told the owner
    releases: nat,        // pending ReleaseAfterStopped tasks
    closed: nat,          // history: closes the SDK accepted
    scheduleLost: bool)   // history: a stop task could not be scheduled

  function Init(validPort: bool): Tunnel {
    Tunnel(FRESH, validPort, NotCalled, Idle, 0, 0, 0, 0, 0, 0, 0, 0, 0, 0, 0, false)
  }

  datatype Action =
    | CreateTunnel(usable: bool)
    | EnterConnect
    | ConnectReturns(success: bool)
    | LeaveConnect
    | StopConnected
    | AskStop
    | EnterSchedule
    | ScheduleReturns(scheduled: bool)
    | ClearSchedule
    | RunStopTask
    | CloseReturns(accepted: bool)
    | ClearQueued
    | ReportStopped
    | TellOwner
    | ScheduleRelease(scheduled: bool)
    | RunRelease
    | StreamStarts
    | StreamEnds
    | CreateForward(created: bool)
    | Adopt
    | ForwardConnects(success: bool)
    | ForwardDies(forward: nat)
    | EndForward
    | CheckReset
    | SendReset(success: bool)

  predicate Enabled(t: Tunnel, a: Action) {
    match a
    case CreateTunnel(_) => t.connect.NotCalled?
    case EnterConnect => t.connect.Created?
    case ConnectReturns(_) => t.connect.InSdk?
    case LeaveConnect => t.connect.Returned?
    case StopConnected => t.connect.StopAfter?
    case AskStop => true
    case EnterSchedule => t.stopCalls > 0
    case ScheduleReturns(_) => t.scheduling > 0
    case ClearSchedule => t.scheduleFailed > 0
    case RunStopTask => t.tasks > 0
    case CloseReturns(_) => t.closing > 0
    case ClearQueued => t.closeFailed > 0
    case ReportStopped => SdkStarted(t.connect)
    case TellOwner => t.stoppedCalls > 0
    case ScheduleRelease(_) => t.releasing > 0
    case RunRelease => t.releases > 0
    case StreamStarts => t.stream.Idle?
    case StreamEnds => t.stream.Idle?
    case CreateForward(_) => t.stream.Creating?
    case Adopt => t.stream.Adopting?
    case ForwardConnects(_) => t.stream.ConnectingForward?
    case ForwardDies(forward) => t.stream.Idle? && forward < t.nextForward
    case EndForward => t.stream.Ending?
    case CheckReset => t.stream.CheckingReset?
    case SendReset(_) => t.stream.SendingReset?
  }

  /** The SDK may call back once its connect function has been entered on a tunnel. */
  predicate SdkStarted(c: Connect) {
    c.InSdk? || c.Returned? || c.StopAfter? || c == Done(true)
  }

  function AskToStop(t: Tunnel): Tunnel {
    var (c, schedule) := RequestStop(t.c);
    t.(c := c, stopCalls := if schedule then t.stopCalls + 1 else t.stopCalls)
  }

  function Step(t: Tunnel, a: Action): Tunnel
    requires Enabled(t, a)
  {
    match a
    case CreateTunnel(usable) => t.(connect := if usable then Created else Done(false))
    case EnterConnect =>
      var (c, go) := BeginConnect(t.c);
      t.(c := c, connect := if go then InSdk else Done(false))
    case ConnectReturns(success) => t.(connect := Returned(success))
    case LeaveConnect =>
      var (c, stopAfter) := EndConnect(t.c, t.connect.success);
      t.(c := c, connect := if stopAfter then StopAfter else Done(t.connect.success))
    case StopConnected => AskToStop(t).(connect := Done(true))
    case AskStop => AskToStop(t)
    case EnterSchedule =>
      var (c, schedule) := ScheduleSection(t.c);
      t.(c := c, stopCalls := t.stopCalls - 1, scheduling := if schedule then t.scheduling + 1 else t.scheduling)
    case ScheduleReturns(scheduled) =>
      if scheduled then t.(scheduling := t.scheduling - 1, tasks := t.tasks + 1)
      else t.(scheduling := t.scheduling - 1, scheduleFailed := t.scheduleFailed + 1, scheduleLost := true)
    case ClearSchedule => t.(c := t.c.(stopTaskScheduled := false), scheduleFailed := t.scheduleFailed - 1)
    case RunStopTask =>
      var (c, close) := QueueSection(t.c);
      t.(c := c, tasks := t.tasks - 1, closing := if close then t.closing + 1 else t.closing)
    case CloseReturns(accepted) =>
      if accepted then t.(closing := t.closing - 1, closed := t.closed + 1)
      else t.(closing := t.closing - 1, closeFailed := t.closeFailed + 1)
    case ClearQueued =>
      t.(c := t.c.(stopQueued := false), closeFailed := t.closeFailed - 1, stopCalls := t.stopCalls + 1)
    case ReportStopped =>
      var (c, first) := StoppedSection(t.c);
      t.(c := c, stoppedCalls := if first then t.stoppedCalls + 1 else t.stoppedCalls)
    case TellOwner => t.(stoppedCalls := t.stoppedCalls - 1, releasing := t.releasing + 1)
    case ScheduleRelease(scheduled) =>
      t.(releasing := t.releasing - 1, releases := if scheduled then t.releases + 1 else t.releases)
    // Its two sections are one step: with the tunnel stopped no forward can be adopted in between.
    case RunRelease => t.(c := ReleaseSection(t.c.(forward := None)), releases := t.releases - 1)
    case StreamStarts =>
      if !t.validPort then t.(stream := CheckingReset)
      else t.(c := t.c.(forward := None), stream := Creating)
    case StreamEnds => t.(c := t.c.(forward := None))
    case CreateForward(created) =>
      if created then t.(stream := Adopting(t.nextForward), nextForward := t.nextForward + 1)
      else t.(stream := CheckingReset)
    case Adopt =>
      var (c, connect) := InstallForward(t.c, t.stream.forward);
      t.(c := c, stream := if connect then ConnectingForward(t.stream.forward) else Idle)
    case ForwardConnects(success) => t.(stream := if success then Idle else Ending(t.stream.forward))
    case ForwardDies(forward) => t.(stream := Ending(forward))
    case EndForward =>
      var (c, reset) := ForwardTerminated(t.c, t.stream.forward);
      t.(c := c, stream := if reset then CheckingReset else Idle)
    case CheckReset => t.(stream := if MayReset(t.c) then SendingReset else Idle)
    case SendReset(success) => (if success then t else AskToStop(t)).(stream := Idle)
  }

  predicate Runs(t: Tunnel, actions: seq<Action>)
    decreases |actions|
  {
    actions != [] ==> Enabled(t, actions[0]) && Runs(Step(t, actions[0]), actions[1..])
  }

  function After(t: Tunnel, actions: seq<Action>): Tunnel
    requires Runs(t, actions)
    decreases |actions|
  {
    if actions == [] then t else After(Step(t, actions[0]), actions[1..])
  }

  ghost predicate Reachable(t: Tunnel) {
    exists validPort, actions :: Runs(Init(validPort), actions) && After(Init(validPort), actions) == t
  }

  // ---------------------------------------------------------------- the invariant

  /** Each of the two stop flags stands for exactly one thread, task or accepted close. */
  predicate TaskFlag(t: Tunnel) {
    && t.scheduling + t.scheduleFailed + t.tasks == (if t.c.stopTaskScheduled then 1 else 0)
    && (t.scheduleFailed > 0 ==> t.scheduleLost)
    && !(t.c.stopTaskScheduled && t.c.stopQueued)
  }

  predicate CloseFlag(t: Tunnel) {
    t.closing + t.closeFailed + t.closed == (if t.c.stopQueued then 1 else 0)
  }

  predicate StopUnderWay(t: Tunnel) {
    t.stopCalls > 0 || t.c.stopTaskScheduled || t.c.stopQueued ==>
      t.c.stopRequested && (t.connect.StopAfter? || t.connect == Done(true))
  }

  predicate Connecting(t: Tunnel) {
    && (t.c.connectInProgress <==> t.connect.InSdk? || t.connect.Returned?)
    && (t.connect.NotCalled? || t.connect.Created? ==> !t.c.held && !t.c.stopped)
    && (t.connect == Done(false) ==> !t.c.held)
    && (t.connect.StopAfter? ==> t.c.stopRequested)
    && (t.stoppedCalls + t.releasing + t.releases > 0 ==> t.c.stopped)
  }

  predicate Alive(t: Tunnel) {
    (t.c.stopRequested || t.c.stopped) && t.c.held ==> t.c.keepAlive
  }

  /** A requested stop that is still owed to a held tunnel is in somebody's hands. */
  predicate StopInHand(t: Tunnel) {
    t.c.stopRequested && t.c.held && !t.c.stopped && !t.scheduleLost ==>
      t.c.connectInProgress || t.connect.StopAfter? || t.stopCalls > 0 || t.c.stopTaskScheduled || t.c.stopQueued
  }

  predicate Streams(t: Tunnel) {
    && (!t.validPort ==> t.c.forward.None? && (t.stream.Idle? || t.stream.CheckingReset? || t.stream.SendingReset?)
                         && t.nextForward == 0)
    && (t.c.forward.Some? ==> t.c.forward.value < t.nextForward)
    && (t.stream.Adopting? || t.stream.ConnectingForward? || t.stream.Ending? ==> t.stream.forward < t.nextForward)
    && (t.stream.Creating? || t.stream.Adopting? || t.stream.CheckingReset? || t.stream.SendingReset? ==>
          t.c.forward.None?)
  }

  predicate Inv(t: Tunnel) {
    TaskFlag(t) && CloseFlag(t) && StopUnderWay(t) && Connecting(t) && Alive(t) && StopInHand(t) && Streams(t)
  }

  predicate ConnectAction(a: Action) {
    a.CreateTunnel? || a.EnterConnect? || a.ConnectReturns? || a.LeaveConnect? || a.StopConnected?
  }

  predicate StopAction(a: Action) {
    a.AskStop? || a.EnterSchedule? || a.ScheduleReturns? || a.ClearSchedule?
  }

  predicate CloseAction(a: Action) {
    a.RunStopTask? || a.CloseReturns? || a.ClearQueued?
  }

  predicate StoppedAction(a: Action) {
    a.ReportStopped? || a.TellOwner? || a.ScheduleRelease? || a.RunRelease?
  }

  lemma ConnectActionKeeps(t: Tunnel, a: Action)
    requires Inv(t) && Enabled(t, a) && ConnectAction(a)
    ensures Inv(Step(t, a))
  {
  }

  lemma StopActionKeeps(t: Tunnel, a: Action)
    requires Inv(t) && Enabled(t, a) && StopAction(a)
    ensures Inv(Step(t, a))
  {
  }

  lemma RunStopTaskKeeps(t: Tunnel)
    requires Inv(t) && Enabled(t, RunStopTask)
    ensures Inv(Step(t, RunStopTask))
  {
  }

  lemma CloseReturnsKeeps(t: Tunnel, accepted: bool)
    requires Inv(t) && Enabled(t, CloseReturns(accepted))
    ensures Inv(Step(t, CloseReturns(accepted)))
  {
  }

  lemma ClearQueuedKeeps(t: Tunnel)
    requires Inv(t) && Enabled(t, ClearQueued)
    ensures Inv(Step(t, ClearQueued))
  {
  }

  lemma CloseActionKeeps(t: Tunnel, a: Action)
    requires Inv(t) && Enabled(t, a) && CloseAction(a)
    ensures Inv(Step(t, a))
  {
    match a
    case RunStopTask => RunStopTaskKeeps(t);
    case CloseReturns(accepted) => CloseReturnsKeeps(t, accepted);
    case ClearQueued => ClearQueuedKeeps(t);
  }

  lemma StoppedActionKeeps(t: Tunnel, a: Action)
    requires Inv(t) && Enabled(t, a) && StoppedAction(a)
    ensures Inv(Step(t, a))
  {
  }

  lemma StreamActionKeeps(t: Tunnel, a: Action)
    requires Inv(t) && Enabled(t, a) && !ConnectAction(a) && !StopAction(a) && !CloseAction(a) && !StoppedAction(a)
    requires !a.SendReset?
    ensures Inv(Step(t, a))
  {
  }

  lemma SendResetKeeps(t: Tunnel, success: bool)
    requires Inv(t) && Enabled(t, SendReset(success))
    ensures Inv(Step(t, SendReset(success)))
  {
  }

  lemma StepKeeps(t: Tunnel, a: Action)
    requires Inv(t) && Enabled(t, a)
    ensures Inv(Step(t, a))
  {
    if ConnectAction(a) {
      ConnectActionKeeps(t, a);
    } else if StopAction(a) {
      StopActionKeeps(t, a);
    } else if CloseAction(a) {
      CloseActionKeeps(t, a);
    } else if StoppedAction(a) {
      StoppedActionKeeps(t, a);
    } else if a.SendReset? {
      SendResetKeeps(t, a.success);
    } else {
      StreamActionKeeps(t, a);
    }
  }

  lemma {:induction false} RunKeeps(t: Tunnel, actions: seq<Action>)
    requires Inv(t) && Runs(t, actions)
    ensures Inv(After(t, actions))
    decreases |actions|
  {
    if actions != [] {
      StepKeeps(t, actions[0]);
      RunKeeps(Step(t, actions[0]), actions[1..]);
    }
  }

  lemma FreshTunnel(validPort: bool)
    ensures Inv(Init(validPort))
  {
    var t := Init(validPort);
    assert t.c == FRESH && t.connect == NotCalled && t.stream == Idle;
  }

  lemma ReachableInv(t: Tunnel)
    requires Reachable(t)
    ensures Inv(t)
  {
    var validPort, actions :| Runs(Init(validPort), actions) && After(Init(validPort), actions) == t;
    FreshTunnel(validPort);
    RunKeeps(Init(validPort), actions);
  }

  // ---------------------------------------------------------------- what every run guarantees

  predicate ThreadsBetweenLocks(t: Tunnel) {
    t.stopCalls + t.scheduling + t.scheduleFailed + t.closing + t.closeFailed > 0
  }

  /** Nothing is under way between two sections, and no stop task was refused by the event loop. */
  predicate Settled(t: Tunnel) {
    t.connect.Done? && !ThreadsBetweenLocks(t) && !t.scheduleLost
  }

  /** Once things settle, a requested stop is one pending task or one accepted close, never both and never none. */
  lemma NoStopIsLost(t: Tunnel)
    requires Reachable(t) && t.c.stopRequested && t.c.held && !t.c.stopped && Settled(t)
    ensures t.tasks + t.closed == 1
  {
    ReachableInv(t);
  }

  lemma CloseNeverDuringConnect(t: Tunnel)
    requires Reachable(t) && t.closing > 0
    ensures !t.c.connectInProgress && (t.connect.StopAfter? || t.connect == Done(true))
    ensures t.closing == 1 && t.closed == 0
  {
    ReachableInv(t);
  }

  lemma CloseAcceptedOnce(t: Tunnel)
    requires Reachable(t)
    ensures t.closed <= 1
    ensures t.closed == 1 ==> t.tasks == 0 && t.closing == 0 && t.c.stopQueued
  {
    ReachableInv(t);
  }

  lemma KeepAliveWhileNeeded(t: Tunnel)
    requires Reachable(t) && (t.c.stopRequested || t.c.stopped) && t.c.held
    ensures t.c.keepAlive
  {
    ReachableInv(t);
  }

  /** The reference that a scheduled stop task or a release task captures is never empty. */
  lemma TasksCaptureLiveContext(t: Tunnel)
    requires Reachable(t)
    ensures Enabled(t, EnterSchedule) && ScheduleSection(t.c).1 ==> t.c.keepAlive
    ensures Enabled(t, ReportStopped) ==>
              var (c, first) := StoppedSection(t.c); c.stopped && (first ==> c.keepAlive)
  {
    ReachableInv(t);
  }

  // ---------------------------------------------------------------- streams

  /** A reset is only ever sent when no forward is installed: it cannot hit a newer stream. */
  lemma ResetHitsNoForward(t: Tunnel, success: bool)
    requires Reachable(t) && Enabled(t, SendReset(success))
    ensures t.c.forward.None?
  {
    ReachableInv(t);
  }

  /** The event loop is in the callback of a forward that is not installed any more. */
  predicate EndsReplaced(t: Tunnel, forward: nat) {
    t.stream == Ending(forward) && t.c.forward != Some(forward)
  }

  lemma StepKeepsReplaced(t: Tunnel, forward: nat, a: Action)
    requires Inv(t) && EndsReplaced(t, forward) && Enabled(t, a)
    ensures if a.EndForward? then Step(t, a) == t.(stream := Idle) else EndsReplaced(Step(t, a), forward)
  {
  }

  /** A forward that has been replaced ends without a reset, whatever other threads have done meanwhile. */
  lemma {:induction false} LateTerminationIsHarmless(t: Tunnel, forward: nat, actions: seq<Action>)
    requires Inv(t) && EndsReplaced(t, forward) && Runs(t, actions) && EndForward !in actions
    ensures var u := After(t, actions); Enabled(u, EndForward) && Step(u, EndForward) == u.(stream := Idle)
    decreases |actions|
  {
    if actions != [] {
      StepKeepsReplaced(t, forward, actions[0]);
      StepKeeps(t, actions[0]);
      LateTerminationIsHarmless(Step(t, actions[0]), forward, actions[1..]);
    }
  }

  /** The forward that is still installed does reset its stream when it ends on a running tunnel. */
  lemma CurrentTerminationResets(t: Tunnel)
    requires t.stream.Ending? && t.c.forward == Some(t.stream.forward)
    requires t.c.held && !t.c.stopRequested && !t.c.stopped
    ensures Runs(t, [EndForward, CheckReset])
    ensures After(t, [EndForward, CheckReset]) == t.(c := t.c.(forward := None), stream := SendingReset)
  {
    var t1 := Step(t, EndForward);
    var actions := [EndForward, CheckReset];
    assert actions[1..] == [CheckReset] && [CheckReset][1..] == [];
    assert Runs(Step(t1, CheckReset), []);
    assert Runs(t1, [CheckReset]);
  }

  /** A reset is sent exactly on a held tunnel that neither stops nor has stopped. */
  lemma CheckResetLeadsTo(t: Tunnel)
    requires Enabled(t, CheckReset)
    ensures Step(t, CheckReset) ==
            t.(stream := if t.c.held && !t.c.stopRequested && !t.c.stopped then SendingReset else Idle)
  {
  }

  /** A new forward is installed, and then connected, exactly if the tunnel neither stops nor has stopped. */
  lemma AdoptLeadsTo(t: Tunnel)
    requires Enabled(t, Adopt)
    ensures var u := Step(t, Adopt);
            if !t.c.stopRequested && !t.c.stopped then
              u == t.(c := t.c.(forward := Some(t.stream.forward)), stream := ConnectingForward(t.stream.forward))
            else
              u == t.(stream := Idle)
  {
  }

  /** A stream start drops the old forward and leads to a new one exactly if the port is valid. */
  lemma StreamStartLeadsTo(t: Tunnel)
    requires Enabled(t, StreamStarts)
    ensures Step(t, StreamStarts) ==
            if t.validPort then t.(c := t.c.(forward := None), stream := Creating) else t.(stream := CheckingReset)
  {
  }

  /** The tunnel enters the SDK exactly if it has not been asked to stop, and is held while it is inside. */
  lemma ConnectLeadsTo(t: Tunnel)
    requires Enabled(t, EnterConnect)
    ensures var u := Step(t, EnterConnect);
            if t.c.stopRequested then u == t.(connect := Done(false))
            else u.connect.InSdk? && u.c == t.c.(held := true, connectInProgress := true)
  {
  }

  /** A connect that succeeds keeps the tunnel, and stops it exactly if that was asked; one that fails lets it go. */
  lemma LeaveConnectLeadsTo(t: Tunnel)
    requires Enabled(t, LeaveConnect)
    ensures var u := Step(t, LeaveConnect);
            if t.connect.success then
              && u.c == t.c.(connectInProgress := false)
              && u.connect == if t.c.stopRequested then StopAfter else Done(true)
            else
              && !u.c.held && !u.c.connectInProgress && u.c.forward == t.c.forward && u.connect == Done(false)
              && (u.c.stopped <==> t.c.stopped || t.c.stopRequested)
              && (u.c.keepAlive <==> t.c.keepAlive && !t.c.stopRequested)
  {
  }

  /** A stop request is recorded in every case, keeps a held tunnel alive, and goes on to a task if none is in hand. */
  lemma AskStopLeadsTo(t: Tunnel)
    ensures var u := Step(t, AskStop);
            && u.c == t.c.(stopRequested := true, keepAlive := t.c.keepAlive || t.c.held)
            && u.stopCalls == t.stopCalls +
               (if t.c.held && !t.c.stopped && !t.c.connectInProgress && !t.c.stopQueued && !t.c.stopTaskScheduled
                then 1 else 0)
  {
  }

  /** The first report of the SDK that the tunnel has stopped is the one that counts. */
  lemma StoppedLeadsTo(t: Tunnel)
    requires Enabled(t, ReportStopped)
    ensures var u := Step(t, ReportStopped);
            if t.c.stopped then u == t
            else u.c == t.c.(stopped := true, keepAlive := true) && u.stoppedCalls == t.stoppedCalls + 1
  {
  }

  /** The end of a forward drops it and asks for a reset exactly if it is the one installed. */
  lemma EndForwardLeadsTo(t: Tunnel)
    requires Enabled(t, EndForward)
    ensures Step(t, EndForward) ==
            if t.c.forward == Some(t.stream.forward) then t.(c := t.c.(forward := None), stream := CheckingReset)
            else t.(stream := Idle)
  {
  }

  /** The release after a stop lets go of the tunnel, its forward and the reference to itself. */
  lemma ReleaseLeadsTo(t: Tunnel)
    requires Enabled(t, RunRelease)
    ensures var u := Step(t, RunRelease);
            u.c == t.c.(forward := None, held := false, keepAlive := false) && u.releases == t.releases - 1
  {
  }

  /** A stop task closes the tunnel exactly if it is held, has not stopped and is not being closed. */
  lemma StopTaskLeadsTo(t: Tunnel)
    requires Enabled(t, RunStopTask)
    ensures var u := Step(t, RunStopTask);
            && u.closing == t.closing + (if t.c.held && !t.c.stopped && !t.c.stopQueued then 1 else 0)
            && (u.closing > t.closing ==> u.c.stopQueued) && u.tasks == t.tasks - 1 && !u.c.stopTaskScheduled
  {
  }

  /** A stop request that reaches its section schedules a task exactly if nobody else carries the stop out. */
  lemma ScheduleLeadsTo(t: Tunnel)
    requires Enabled(t, EnterSchedule)
    ensures var u := Step(t, EnterSchedule);
            && u.scheduling == t.scheduling +
               (if t.c.held && !t.c.stopped && !t.c.connectInProgress && !t.c.stopQueued && !t.c.stopTaskScheduled
                then 1 else 0)
            && (u.scheduling > t.scheduling ==> u.c.stopTaskScheduled)
  {
  }

  /** On every running tunnel with a valid port a stream start gets its own forward installed and connected. */
  lemma StreamInstallsForward(t: Tunnel) returns (end: Tunnel, actions: seq<Action>)
    requires t.validPort && t.stream.Idle? && !t.c.stopRequested && !t.c.stopped
    ensures Runs(t, actions) && After(t, actions) == end
    ensures end == t.(c := t.c.(forward := Some(t.nextForward)), nextForward := t.nextForward + 1)
  {
    var t1 := Step(t, StreamStarts);
    var t2 := Step(t1, CreateForward(true));
    var t3 := Step(t2, Adopt);
    end := Step(t3, ForwardConnects(true));
    actions := RunOf(t3, ForwardConnects(true), [], end);
    actions := RunOf(t2, Adopt, actions, end);
    actions := RunOf(t1, CreateForward(true), actions, end);
    actions := RunOf(t, StreamStarts, actions, end);
  }

  /** A run from the start in which a tunnel connects, a stream starts, and its forward is installed and connected. */
  lemma ForwardIsInstalled() returns (t: Tunnel, actions: seq<Action>)
    ensures Runs(Init(true), actions) && After(Init(true), actions) == t
    ensures t.connect == Done(true) && t.c.held && t.c.forward == Some(0) && t.stream.Idle? && !t.c.stopRequested
  {
    var t0 := Init(true);
    var t1 := Step(t0, CreateTunnel(true));
    var t2 := Step(t1, EnterConnect);
    var t3 := Step(t2, ConnectReturns(true));
    var t4 := Step(t3, LeaveConnect);
    t, actions := StreamInstallsForward(t4);
    actions := RunOf(t3, LeaveConnect, actions, t);
    actions := RunOf(t2, ConnectReturns(true), actions, t);
    actions := RunOf(t1, EnterConnect, actions, t);
    actions := RunOf(t0, CreateTunnel(true), actions, t);
  }

  /** Puts one step in front of a run. */
  lemma RunOf(t: Tunnel, a: Action, rest: seq<Action>, end: Tunnel) returns (actions: seq<Action>)
    requires Enabled(t, a) && Runs(Step(t, a), rest) && After(Step(t, a), rest) == end
    ensures actions == [a] + rest && Runs(t, actions) && After(t, actions) == end
  {
    actions := [a] + rest;
    assert actions[1..] == rest;
  }

  // ---------------------------------------------------------------- facts about the past of a tunnel

  /** A stop() can no longer be missed: it is recorded, or the tunnel has stopped, or it never connected. */
  predicate Handled(t: Tunnel) {
    t.c.stopRequested || t.c.stopped || t.connect == Done(false)
  }

  lemma HandledStays(t: Tunnel, a: Action)
    requires Enabled(t, a) && Handled(t)
    ensures Handled(Step(t, a))
  {
  }

  predicate StopsBeforeConnect(c: Context, connect: Connect) {
    c.stopRequested && (connect.NotCalled? || connect.Created? || connect == Done(false))
  }

  lemma StepStopsBeforeConnect(t: Tunnel, a: Action)
    requires Enabled(t, a) && StopsBeforeConnect(t.c, t.connect)
    ensures StopsBeforeConnect(Step(t, a).c, Step(t, a).connect)
  {
    assert !SdkStarted(t.connect) && Step(t, a).c.stopRequested;
  }

  /** A tunnel that was asked to stop before it entered the SDK never connects, over any run. */
  lemma {:induction false} StoppedBeforeConnect(t: Tunnel, actions: seq<Action>, k: nat)
    requires Runs(t, actions) && StopsBeforeConnect(t.c, t.connect) && k < |actions|
    ensures !actions[k].ConnectReturns? && !SdkStarted(After(t, actions).connect)
    decreases |actions|
  {
    StepStopsBeforeConnect(t, actions[0]);
    if |actions| > 1 {
      StoppedBeforeConnect(Step(t, actions[0]), actions[1..], if k == 0 then 0 else k - 1);
    }
  }

  // ---------------------------------------------------------------- the owner

  function OwnerCalls(actions: seq<Action>): nat {
    if actions == [] then 0 else (if actions[0].TellOwner? then 1 else 0) + OwnerCalls(actions[1..])
  }

  /** How often the owner may still be told. */
  function OwnerCallsLeft(t: Tunnel): nat {
    t.stoppedCalls + if t.c.stopped then 0 else 1
  }

  lemma StepTellsOwner(t: Tunnel, a: Action)
    requires Enabled(t, a)
    ensures OwnerCallsLeft(Step(t, a)) + (if a.TellOwner? then 1 else 0) <= OwnerCallsLeft(t)
  {
  }

  lemma {:induction false} RunTellsOwner(t: Tunnel, actions: seq<Action>)
    requires Runs(t, actions)
    ensures OwnerCalls(actions) <= OwnerCallsLeft(t)
    decreases |actions|
  {
    if actions != [] {
      StepTellsOwner(t, actions[0]);
      RunTellsOwner(Step(t, actions[0]), actions[1..]);
    }
  }

  /** However often the SDK reports that a tunnel has stopped, its owner is told at most once. */
  lemma OwnerToldAtMostOnce(validPort: bool, actions: seq<Action>)
    requires Runs(Init(validPort), actions)
    ensures OwnerCalls(actions) <= 1
  {
    RunTellsOwner(Init(validPort), actions);
  }
}

/**
 Stopping the feature while tunnels open, close and connect: the feature and all its tunnels as one system.

 `mTunnelNotificationLock` lets one notification be handled at a time; stop() calls and the threads and tasks of
 every tunnel run freely beside it.
 */
module TunnelStop {
  import opened TunnelContext
  import opened TunnelFeature

  /** Where OnSubscribeToTunnelsNotifyResponse is; the number is the lifecycle generation read at its window. */
  datatype Handler =
    | Idle
    | Accepted(lifecycle: nat)
    | Admitted(lifecycle: nat)
    | HasContext(lifecycle: nat, context: nat)
    | Connecting(context: nat)
    | Erasing(context: nat)

  /** A stop() call past its section; it has returned when nothing is left to do. */
  datatype StopCall = StopCall(todo: seq<nat>, covered: set<nat>)

  datatype System = System(
    f: Feature,
    handler: Handler,
    tunnels: map<nat, Tunnel>,
    stops: seq<StopCall>,
    configured: set<nat>,
    // history
    pushed: set<nat>,
    acceptedUnder: map<nat, nat>)  // the lifecycle generation at the window of the tunnel's notification

  function Init(notify: bool, configured: seq<nat>, validPorts: set<nat>): System {
    System(Feature(false, false, 0, 0, 0, false, notify, configured), Handler.Idle,
           map id | id in configured :: TunnelContext.Init(id in validPorts), [], set id | id in configured,
           set id | id in configured, map id | id in configured :: 0)
  }

  datatype Action =
    | Start
    | Stop
    | StopOne(call: nat)
    | Accept
    | Admit
    | Reject
    | MakeContext(context: nat, validPort: bool)
    | Push
    | ConnectDone
    | Erase
    | InTunnel(context: nat, a: TunnelContext.Action)

  ghost predicate Enabled(s: System, a: Action) {
    match a
    case Start => true
    case Stop => true
    case StopOne(call) => call < |s.stops| && s.stops[call].todo != [] && s.stops[call].todo[0] in s.tunnels
    case Accept => s.handler.Idle? && s.f.started
    case Admit => s.handler.Accepted?
    case Reject => s.handler.Accepted? || s.handler.Admitted?
    case MakeContext(context, _) => s.handler.Admitted? && context !in s.tunnels
    case Push => s.handler.HasContext?
    case ConnectDone => s.handler.Connecting? && s.handler.context in s.tunnels &&
                        s.tunnels[s.handler.context].connect.Done?
    case Erase => s.handler.Erasing?
    case InTunnel(context, b) =>
      && context in s.tunnels && TunnelContext.Enabled(s.tunnels[context], b)
      && (b.CreateTunnel? ==> context in s.configured || s.handler == Connecting(context))
  }

  ghost function Step(s: System, a: Action): System
    requires Enabled(s, a)
  {
    match a
    case Start => s.(f := StartSection(s.f))
    case Stop => s.(f := StopSection(s.f), stops := s.stops + [StopCall(s.f.contexts, s.pushed)])
    case StopOne(call) =>
      var c := s.stops[call];
      s.(tunnels := s.tunnels[c.todo[0] := AskToStop(s.tunnels[c.todo[0]])],
         stops := s.stops[call := c.(todo := c.todo[1..])])
    case Accept => s.(handler := Accepted(s.f.lifecycleGeneration))
    case Admit =>
      s.(handler := if StillCurrent(s.f, s.handler.lifecycle) then Admitted(s.handler.lifecycle) else Handler.Idle)
    case Reject => s.(handler := Handler.Idle)
    case MakeContext(context, validPort) =>
      s.(handler := HasContext(s.handler.lifecycle, context),
         tunnels := s.tunnels[context := TunnelContext.Init(validPort)],
         acceptedUnder := s.acceptedUnder[context := s.handler.lifecycle])
    case Push =>
      var (f, ok) := PushSection(s.f, s.handler.lifecycle, s.handler.context);
      s.(f := f, handler := if ok then Connecting(s.handler.context) else Handler.Idle,
         pushed := if ok then s.pushed + {s.handler.context} else s.pushed)
    case ConnectDone =>
      s.(handler := if s.tunnels[s.handler.context].connect.result then Handler.Idle
                    else Erasing(s.handler.context))
    case Erase => s.(f := s.f.(contexts := Without(s.f.contexts, s.handler.context)), handler := Handler.Idle)
    case InTunnel(context, b) =>
      s.(tunnels := s.tunnels[context := TunnelContext.Step(s.tunnels[context], b)],
         f := if b.TellOwner? then s.f.(contexts := Without(s.f.contexts, context)) else s.f)
  }

  ghost predicate Runs(s: System, actions: seq<Action>)
    decreases |actions|
  {
    actions != [] ==> Enabled(s, actions[0]) && Runs(Step(s, actions[0]), actions[1..])
  }

  ghost function After(s: System, actions: seq<Action>): System
    requires Runs(s, actions)
    decreases |actions|
  {
    if actions == [] then s else After(Step(s, actions[0]), actions[1..])
  }

  ghost predicate Reachable(s: System) {
    exists notify, configured, validPorts, actions ::
      Runs(Init(notify, configured, validPorts), actions) && After(Init(notify, configured, validPorts), actions) == s
  }

  // ---------------------------------------------------------------- the invariant

  ghost predicate Sound(tunnels: map<nat, Tunnel>) {
    forall id :: id in tunnels ==> TunnelContext.Inv(tunnels[id])
  }

  ghost predicate Tunnels(s: System) {
    && s.configured <= s.pushed <= s.tunnels.Keys == s.acceptedUnder.Keys
    && (forall id :: id in s.f.contexts ==> id in s.pushed)
    && (forall id :: id in s.tunnels && id !in s.pushed ==> s.tunnels[id].connect.NotCalled?)
  }

  ghost predicate Handlers(s: System)
    requires Tunnels(s)
  {
    && (s.handler.HasContext? ==> s.handler.context in s.tunnels && s.handler.context !in s.pushed &&
                                  s.acceptedUnder[s.handler.context] == s.handler.lifecycle)
    && (s.handler.Connecting? ==> s.handler.context in s.pushed)
    && (s.handler.Erasing? ==> s.handler.context in s.pushed && Handled(s.tunnels[s.handler.context]))
  }

  /** A tunnel that has left the list is past the point where a stop() could miss it. */
  ghost predicate ListedOrHandled(s: System)
    requires Tunnels(s)
  {
    forall id :: id in s.pushed ==> id in s.f.contexts || Handled(s.tunnels[id])
  }

  ghost predicate CallCovers(tunnels: map<nat, Tunnel>, call: StopCall) {
    && (forall id :: id in call.todo ==> id in tunnels)
    && (forall id :: id in call.covered ==> id in tunnels && (id in call.todo || Handled(tunnels[id])))
  }

  ghost predicate StopsCover(s: System) {
    forall call :: call in s.stops ==> CallCovers(s.tunnels, call)
  }

  ghost predicate Inv(s: System) {
    Tunnels(s) && Handlers(s) && ListedOrHandled(s) && StopsCover(s)
  }

  /** One tunnel moves on; `gone` says that it also leaves the list.  The other tunnels stay as they are. */
  lemma TunnelMoves(s: System, id: nat, t: Tunnel, gone: bool)
    requires Inv(s) && id in s.tunnels
    requires Handled(s.tunnels[id]) ==> Handled(t)
    requires gone ==> Handled(t)
    requires id !in s.pushed ==> t.connect.NotCalled?
    ensures Inv(s.(tunnels := s.tunnels[id := t],
                   f := if gone then s.f.(contexts := Without(s.f.contexts, id)) else s.f))
  {
    StopsCoverMove(s, id, t);
    MoveKeepsTunnels(s, id, t, gone);
    MoveKeepsHandlers(s, id, t, gone);
    MoveKeepsList(s, id, t, gone);
  }

  lemma StopsCoverMove(s: System, id: nat, t: Tunnel)
    requires StopsCover(s) && id in s.tunnels && (Handled(s.tunnels[id]) ==> Handled(t))
    ensures forall call :: call in s.stops ==> CallCovers(s.tunnels[id := t], call)
  {
    forall call | call in s.stops ensures CallCovers(s.tunnels[id := t], call) {
      assert CallCovers(s.tunnels, call);
    }
  }

  function Moved(s: System, id: nat, t: Tunnel, gone: bool): System {
    s.(tunnels := s.tunnels[id := t], f := if gone then s.f.(contexts := Without(s.f.contexts, id)) else s.f)
  }

  lemma MoveKeepsTunnels(s: System, id: nat, t: Tunnel, gone: bool)
    requires Tunnels(s) && id in s.tunnels && (id !in s.pushed ==> t.connect.NotCalled?)
    ensures Tunnels(Moved(s, id, t, gone))
  {
  }

  lemma MoveKeepsHandlers(s: System, id: nat, t: Tunnel, gone: bool)
    requires Tunnels(s) && Handlers(s) && id in s.tunnels && (Handled(s.tunnels[id]) ==> Handled(t))
    requires Tunnels(Moved(s, id, t, gone))
    ensures Handlers(Moved(s, id, t, gone))
  {
  }

  lemma MoveKeepsList(s: System, id: nat, t: Tunnel, gone: bool)
    requires Tunnels(s) && ListedOrHandled(s) && id in s.tunnels && (Handled(s.tunnels[id]) ==> Handled(t))
    requires (gone ==> Handled(t)) && Tunnels(Moved(s, id, t, gone))
    ensures ListedOrHandled(Moved(s, id, t, gone))
  {
  }

  lemma TunnelStaysUnconnected(t: Tunnel, b: TunnelContext.Action)
    requires TunnelContext.Enabled(t, b) && t.connect.NotCalled? && !b.CreateTunnel?
    ensures TunnelContext.Step(t, b).connect.NotCalled?
  {
  }

  lemma TunnelStepFacts(t: Tunnel, b: TunnelContext.Action)
    requires TunnelContext.Inv(t) && TunnelContext.Enabled(t, b)
    ensures var u := TunnelContext.Step(t, b);
            && (Handled(t) || b.TellOwner? ==> Handled(u))
            && (t.connect.NotCalled? && !b.CreateTunnel? ==> u.connect.NotCalled?)
  {
    if Handled(t) {
      HandledStays(t, b);
    }
    if t.connect.NotCalled? && !b.CreateTunnel? {
      TunnelStaysUnconnected(t, b);
    }
  }

  lemma InTunnelKeeps(s: System, context: nat, b: TunnelContext.Action)
    requires Inv(s) && Sound(s.tunnels) && Enabled(s, InTunnel(context, b))
    ensures Inv(Step(s, InTunnel(context, b)))
  {
    TunnelStepFacts(s.tunnels[context], b);
    TunnelMoves(s, context, TunnelContext.Step(s.tunnels[context], b), b.TellOwner?);
  }

  lemma StopOneKeeps(s: System, call: nat)
    requires Inv(s) && Enabled(s, StopOne(call))
    ensures Inv(Step(s, StopOne(call)))
  {
    var c := s.stops[call];
    var id, t := c.todo[0], AskToStop(s.tunnels[c.todo[0]]);
    TunnelMoves(s, id, t, false);
    CallDone(s.(tunnels := s.tunnels[id := t]), call);
  }

  /** Crossing off a tunnel that has been asked to stop. */
  lemma CallDone(s: System, call: nat)
    requires Inv(s) && call < |s.stops| && s.stops[call].todo != []
    requires s.stops[call].todo[0] in s.tunnels && Handled(s.tunnels[s.stops[call].todo[0]])
    ensures var c := s.stops[call]; Inv(s.(stops := s.stops[call := c.(todo := c.todo[1..])]))
  {
    var c := s.stops[call];
    var done := c.(todo := c.todo[1..]);
    var stops := s.stops[call := done];
    assert CallCovers(s.tunnels, c);
    assert forall other :: other in c.todo ==> other == c.todo[0] || other in c.todo[1..];
    forall other | other in stops ensures CallCovers(s.tunnels, other) {
      assert other == done || other in s.stops;
    }
  }

  lemma MakeContextKeeps(s: System, context: nat, validPort: bool)
    requires Inv(s) && Enabled(s, MakeContext(context, validPort))
    ensures Inv(Step(s, MakeContext(context, validPort)))
  {
    var s' := Step(s, MakeContext(context, validPort));
    forall call | call in s.stops ensures CallCovers(s'.tunnels, call) {
      assert CallCovers(s.tunnels, call);
    }
    assert Tunnels(s');
  }

  lemma ListChangeKeeps(s: System, a: Action)
    requires Inv(s) && Enabled(s, a) && (a.Push? || a.Erase? || a.ConnectDone?)
    ensures Inv(Step(s, a))
  {
    var s' := Step(s, a);
    assert s'.tunnels == s.tunnels && s'.stops == s.stops;
    assert Tunnels(s');
  }

  lemma StepKeeps(s: System, a: Action)
    requires Inv(s) && Sound(s.tunnels) && Enabled(s, a)
    ensures Inv(Step(s, a))
  {
    match a
    case StopOne(call) => StopOneKeeps(s, call);
    case InTunnel(context, b) => InTunnelKeeps(s, context, b);
    case MakeContext(context, validPort) => MakeContextKeeps(s, context, validPort);
    case Push => ListChangeKeeps(s, a);
    case Erase => ListChangeKeeps(s, a);
    case ConnectDone => ListChangeKeeps(s, a);
    case Stop =>
      forall call | call in Step(s, a).stops ensures CallCovers(s.tunnels, call) {
        assert call in s.stops || call == StopCall(s.f.contexts, s.pushed);
      }
    case _ =>
  }

  lemma SoundUpdate(tunnels: map<nat, Tunnel>, id: nat, t: Tunnel)
    requires Sound(tunnels) && TunnelContext.Inv(t)
    ensures Sound(tunnels[id := t])
  {
  }

  lemma StepKeepsSound(s: System, a: Action)
    requires Sound(s.tunnels) && Enabled(s, a)
    ensures Sound(Step(s, a).tunnels)
  {
    match a
    case StopOne(call) =>
      var id := s.stops[call].todo[0];
      TunnelContext.StepKeeps(s.tunnels[id], AskStop);
      SoundUpdate(s.tunnels, id, AskToStop(s.tunnels[id]));
    case InTunnel(context, b) =>
      TunnelContext.StepKeeps(s.tunnels[context], b);
      SoundUpdate(s.tunnels, context, TunnelContext.Step(s.tunnels[context], b));
    case MakeContext(context, validPort) =>
      SoundUpdate(s.tunnels, context, TunnelContext.Init(validPort));
    case _ =>
  }

  lemma {:induction false} RunKeeps(s: System, actions: seq<Action>)
    requires Inv(s) && Sound(s.tunnels) && Runs(s, actions)
    ensures Inv(After(s, actions)) && Sound(After(s, actions).tunnels)
    decreases |actions|
  {
    if actions != [] {
      StepKeeps(s, actions[0]);
      StepKeepsSound(s, actions[0]);
      RunKeeps(Step(s, actions[0]), actions[1..]);
    }
  }

  lemma InitInv(notify: bool, configured: seq<nat>, validPorts: set<nat>)
    ensures Inv(Init(notify, configured, validPorts))
  {
    var s := Init(notify, configured, validPorts);
    assert s.handler == Handler.Idle && s.stops == [] && s.f.contexts == configured;
    assert s.pushed == s.configured == s.tunnels.Keys == s.acceptedUnder.Keys;
  }

  lemma InitSound(notify: bool, configured: seq<nat>, validPorts: set<nat>)
    ensures Sound(Init(notify, configured, validPorts).tunnels)
  {
    forall id | id in configured ensures TunnelContext.Inv(TunnelContext.Init(id in validPorts)) {
      FreshTunnel(id in validPorts);
    }
  }

  lemma ReachableInv(s: System)
    requires Reachable(s)
    ensures Inv(s) && Sound(s.tunnels)
  {
    var notify, configured, validPorts, actions :|
      Runs(Init(notify, configured, validPorts), actions) && After(Init(notify, configured, validPorts), actions) == s;
    InitInv(notify, configured, validPorts);
    InitSound(notify, configured, validPorts);
    RunKeeps(Init(notify, configured, validPorts), actions);
  }

  // ---------------------------------------------------------------- a tunnel is opened unless a stop comes in between

  lemma StepKeepsLifecycleIff(s: System, a: Action)
    requires Enabled(s, a)
    ensures if a.Stop? then !Step(s, a).f.started && Step(s, a).f.lifecycleGeneration > s.f.lifecycleGeneration
            else Step(s, a).f.lifecycleGeneration == s.f.lifecycleGeneration &&
                 (s.f.started ==> Step(s, a).f.started)
  {
  }

  lemma {:induction false} LifecycleGrows(s: System, actions: seq<Action>)
    requires Runs(s, actions)
    ensures After(s, actions).f.lifecycleGeneration >= s.f.lifecycleGeneration
    decreases |actions|
  {
    if actions != [] {
      StepKeepsLifecycleIff(s, actions[0]);
      LifecycleGrows(Step(s, actions[0]), actions[1..]);
    }
  }

  /** The feature runs on in the same life cycle, over any run, if and only if no stop comes. */
  lemma {:induction false} LifecycleHoldsIff(s: System, actions: seq<Action>)
    requires Runs(s, actions) && s.f.started
    ensures var f := After(s, actions).f;
            f.started && f.lifecycleGeneration == s.f.lifecycleGeneration <==> Stop !in actions
    decreases |actions|
  {
    if actions != [] {
      var t := Step(s, actions[0]);
      StepKeepsLifecycleIff(s, actions[0]);
      if actions[0].Stop? {
        LifecycleGrows(t, actions[1..]);
      } else {
        LifecycleHoldsIff(t, actions[1..]);
      }
    }
  }

  /** The life cycle that the handler has read; between two notifications it has read none. */
  predicate HandlerRead(handler: Handler, lifecycle: nat) {
    handler.Accepted? || handler.Admitted? || handler.HasContext? ==> handler.lifecycle == lifecycle
  }

  lemma StepKeepsHandlerRead(s: System, a: Action, lifecycle: nat)
    requires Enabled(s, a) && HandlerRead(s.handler, lifecycle) && !a.Accept?
    ensures HandlerRead(Step(s, a).handler, lifecycle)
  {
  }

  lemma {:induction false} RunKeepsHandlerRead(s: System, actions: seq<Action>, lifecycle: nat)
    requires Runs(s, actions) && HandlerRead(s.handler, lifecycle) && Accept !in actions
    ensures HandlerRead(After(s, actions).handler, lifecycle)
    decreases |actions|
  {
    if actions != [] {
      StepKeepsHandlerRead(s, actions[0], lifecycle);
      RunKeepsHandlerRead(Step(s, actions[0]), actions[1..], lifecycle);
    }
  }

  lemma PushAndAdmitLeadTo(s: System, a: Action)
    requires Enabled(s, a) && (a.Admit? || a.Push?)
    ensures var t := Step(s, a);
            var current := s.f.started && s.handler.lifecycle == s.f.lifecycleGeneration;
            if !current then
              t == s.(handler := Handler.Idle)
            else if a.Admit? then
              t == s.(handler := Admitted(s.handler.lifecycle))
            else
              && t.handler == Connecting(s.handler.context) && t.f.contexts == s.f.contexts + [s.handler.context]
              && t.pushed == s.pushed + {s.handler.context} && t.tunnels == s.tunnels
  {
  }

  /**
   A notification that has passed the window goes on at either of its two later checks, and at the second one has its
   tunnel listed and connected, if and only if no stop has come since.
   */
  lemma NotificationGoesOnIff(s: System, actions: seq<Action>, a: Action)
    requires Enabled(s, Accept) && Runs(Step(s, Accept), actions) && Accept !in actions
    requires var t := After(Step(s, Accept), actions); Enabled(t, a) && (a.Admit? || a.Push?)
    ensures var t := After(Step(s, Accept), actions);
            var u := Step(t, a);
            if Stop in actions then u.handler.Idle? && u.f.contexts == t.f.contexts && u.pushed == t.pushed
            else if a.Admit? then u.handler.Admitted?
            else u.handler == Connecting(t.handler.context) && u.f.contexts == t.f.contexts + [t.handler.context]
  {
    var s1 := Step(s, Accept);
    var t := After(s1, actions);
    LifecycleHoldsIff(s1, actions);
    RunKeepsHandlerRead(s1, actions, s.f.lifecycleGeneration);
    PushAndAdmitLeadTo(t, a);
  }

  /** Puts one step in front of a run. */
  lemma RunOf(s: System, a: Action, rest: seq<Action>, end: System) returns (actions: seq<Action>)
    requires Enabled(s, a) && Runs(Step(s, a), rest) && After(Step(s, a), rest) == end
    ensures actions == [a] + rest && Runs(s, actions) && After(s, actions) == end
  {
    actions := [a] + rest;
    assert actions[1..] == rest;
  }

  /** A started feature takes a notification on, and its tunnel is listed and connected. */
  lemma NotificationOpensTunnel(s: System, id: nat) returns (t: System, actions: seq<Action>)
    requires s.f.started && s.handler.Idle? && id !in s.tunnels
    ensures Runs(s, actions) && After(s, actions) == t
    ensures t.handler.Idle? && t.f.contexts == s.f.contexts + [id] && id in t.pushed && id in t.tunnels
    ensures t.tunnels[id].connect == Done(true) && t.tunnels[id].c.held && !t.tunnels[id].c.stopRequested
  {
    var s1 := Step(s, Accept);
    var s2 := Step(s1, Admit);
    var s3 := Step(s2, MakeContext(id, true));
    var s4 := Step(s3, Push);
    assert s4.handler == Connecting(id) && s4.tunnels[id] == TunnelContext.Init(true);
    t, actions := ConnectTunnel(s4, id);
    actions := RunOf(s3, Push, actions, t);
    actions := RunOf(s2, MakeContext(id, true), actions, t);
    actions := RunOf(s1, Admit, actions, t);
    actions := RunOf(s, Accept, actions, t);
  }

  lemma ConnectTunnel(s: System, id: nat) returns (t: System, actions: seq<Action>)
    requires s.handler == Connecting(id) && id in s.tunnels && s.tunnels[id] == TunnelContext.Init(true)
    ensures Runs(s, actions) && After(s, actions) == t
    ensures t.handler.Idle? && t.f == s.f && t.pushed == s.pushed && id in t.tunnels
    ensures t.tunnels[id].connect == Done(true) && t.tunnels[id].c.held && !t.tunnels[id].c.stopRequested
  {
    var s1 := Step(s, InTunnel(id, CreateTunnel(true)));
    var s2 := Step(s1, InTunnel(id, EnterConnect));
    assert s2.tunnels[id].connect.InSdk? && s2.tunnels[id].c.held && !s2.tunnels[id].c.stopRequested;
    t, actions := FinishTunnel(s2, id);
    actions := RunOf(s1, InTunnel(id, EnterConnect), actions, t);
    actions := RunOf(s, InTunnel(id, CreateTunnel(true)), actions, t);
  }

  lemma FinishTunnel(s: System, id: nat) returns (t: System, actions: seq<Action>)
    requires s.handler == Connecting(id) && id in s.tunnels && s.tunnels[id].connect.InSdk?
    requires s.tunnels[id].c.held && !s.tunnels[id].c.stopRequested
    ensures Runs(s, actions) && After(s, actions) == t
    ensures t.handler.Idle? && t.f == s.f && t.pushed == s.pushed && id in t.tunnels
    ensures t.tunnels[id].connect == Done(true) && t.tunnels[id].c.held && !t.tunnels[id].c.stopRequested
  {
    var s1 := Step(s, InTunnel(id, ConnectReturns(true)));
    var s2 := Step(s1, InTunnel(id, LeaveConnect));
    assert s2.tunnels[id].connect == Done(true) && s2.tunnels[id].c.held;
    t := Step(s2, ConnectDone);
    actions := RunOf(s2, ConnectDone, [], t);
    actions := RunOf(s1, InTunnel(id, LeaveConnect), actions, t);
    actions := RunOf(s, InTunnel(id, ConnectReturns(true)), actions, t);
  }

  // ---------------------------------------------------------------- no tunnel escapes a stop

  predicate Returned(call: StopCall) {
    call.todo == []
  }

  /**
   Once stop() has returned, every tunnel listed before its section has its stop recorded, has stopped, or never
   connected; and once such a tunnel has settled, it holds nothing, has stopped, or has exactly one stop under way.
   */
  lemma NoTunnelEscapesStop(s: System, call: StopCall, id: nat)
    requires Reachable(s) && call in s.stops && Returned(call) && id in call.covered
    ensures id in s.tunnels && Handled(s.tunnels[id])
    ensures var t := s.tunnels[id];
            Settled(t) && t.c.held ==> t.c.stopped || t.tasks + t.closed == 1
  {
    ReachableInv(s);
    assert CallCovers(s.tunnels, call);
    var t := s.tunnels[id];
    assert TunnelContext.Inv(t);
  }

  lemma StepKeepsCovered(s: System, a: Action, call: nat)
    requires Enabled(s, a) && call < |s.stops|
    ensures call < |Step(s, a).stops| && Step(s, a).stops[call].covered == s.stops[call].covered
  {
  }

  lemma {:induction false} RunKeepsCovered(s: System, actions: seq<Action>, call: nat)
    requires Runs(s, actions) && call < |s.stops|
    ensures call < |After(s, actions).stops| && After(s, actions).stops[call].covered == s.stops[call].covered
    decreases |actions|
  {
    if actions != [] {
      StepKeepsCovered(s, actions[0], call);
      RunKeepsCovered(Step(s, actions[0]), actions[1..], call);
    }
  }

  /** When a stop() that is called now returns, no tunnel ever listed by now can connect or go on unnoticed. */
  lemma StopCoversEverything(s: System, later: seq<Action>, id: nat)
    requires Inv(s) && Sound(s.tunnels) && id in s.pushed && Runs(Step(s, Stop), later)
    requires var t := After(Step(s, Stop), later); |s.stops| < |t.stops| && Returned(t.stops[|s.stops|])
    ensures var t := After(Step(s, Stop), later); id in t.tunnels && Handled(t.tunnels[id])
  {
    var s1 := Step(s, Stop);
    StepKeeps(s, Stop);
    StepKeepsSound(s, Stop);
    RunKeeps(s1, later);
    RunKeepsCovered(s1, later, |s.stops|);
    var t := After(s1, later);
    assert t.stops[|s.stops|] in t.stops;
    assert CallCovers(t.tunnels, t.stops[|s.stops|]);
  }

  lemma PushNeedsCurrentLifecycle(s: System, a: Action)
    requires Inv(s) && Enabled(s, a)
    ensures var t := Step(s, a);
            && s.f.lifecycleGeneration <= t.f.lifecycleGeneration
            && s.pushed <= t.pushed && s.acceptedUnder.Keys <= t.acceptedUnder.Keys
            && (forall id :: id in s.acceptedUnder ==> t.acceptedUnder[id] == s.acceptedUnder[id])
            && (forall id :: id in t.pushed - s.pushed ==>
                  id in t.acceptedUnder && t.acceptedUnder[id] == s.f.lifecycleGeneration && s.f.started)
  {
  }

  /** A tunnel listed after some moment was accepted no earlier than that moment's lifecycle generation. */
  lemma {:induction false} LateTunnelsAreNew(s: System, actions: seq<Action>, id: nat)
    requires Inv(s) && Sound(s.tunnels) && Runs(s, actions)
    requires id in After(s, actions).pushed && id !in s.pushed
    ensures id in After(s, actions).acceptedUnder
    ensures After(s, actions).acceptedUnder[id] >= s.f.lifecycleGeneration
    decreases |actions|
  {
    var t := Step(s, actions[0]);
    StepKeeps(s, actions[0]);
    StepKeepsSound(s, actions[0]);
    PushNeedsCurrentLifecycle(s, actions[0]);
    if id in t.pushed {
      LabelsStay(t, actions[1..], id);
    } else {
      LateTunnelsAreNew(t, actions[1..], id);
    }
  }

  lemma {:induction false} LabelsStay(s: System, actions: seq<Action>, id: nat)
    requires Inv(s) && Sound(s.tunnels) && Runs(s, actions) && id in s.acceptedUnder
    ensures var t := After(s, actions); id in t.acceptedUnder && t.acceptedUnder[id] == s.acceptedUnder[id]
    decreases |actions|
  {
    if actions != [] {
      StepKeeps(s, actions[0]);
      StepKeepsSound(s, actions[0]);
      PushNeedsCurrentLifecycle(s, actions[0]);
      LabelsStay(Step(s, actions[0]), actions[1..], id);
    }
  }

  /** A tunnel whose notification was accepted before a stop() and that was not listed by then never connects. */
  lemma UnlistedTunnelNeverConnects(s: System, later: seq<Action>, id: nat)
    requires Reachable(s) && Runs(Step(s, Stop), later)
    requires var t := After(Step(s, Stop), later);
             id in t.tunnels && id in t.acceptedUnder && t.acceptedUnder[id] <= s.f.lifecycleGeneration
    requires id !in s.pushed
    ensures var t := After(Step(s, Stop), later);
            id !in t.pushed && t.tunnels[id].connect.NotCalled? && !t.tunnels[id].c.held
  {
    ReachableInv(s);
    StepKeeps(s, Stop);
    StepKeepsSound(s, Stop);
    var s1 := Step(s, Stop);
    var t := After(s1, later);
    RunKeeps(s1, later);
    if id in t.pushed {
      LateTunnelsAreNew(s1, later, id);
    }
    assert TunnelContext.Inv(t.tunnels[id]);
  }
}

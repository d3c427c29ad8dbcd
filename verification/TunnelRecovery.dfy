/**
 The tunnel notification subscription over whole runs of start, stop, resume, retry and late callbacks.

 A step is one critical section of the feature or one action between two sections.  `start` does not take
 `mSubscriptionLifecycleLock`; resume, retry and stop do, and resume and retry hold it until their subscription
 request has been made.
 */
module TunnelRecovery {
  import opened Options
  import opened TunnelFeature

  /**
   A subscription; `start` and `loss` count starts and lost sessions when its generation was read, `madeStart` and
   `madeLoss` when it was requested.
   */
  datatype Subscription = Subscription(
    generation: nat, recovery: bool, start: nat, loss: nat, madeStart: nat, madeLoss: nat)

  datatype Lifecycle = Free | Issuing(sub: Subscription) | Refused(sub: Subscription)

  datatype System = System(
    f: Feature,
    lifecycle: Lifecycle,
    launching: nat,                     // start() calls before they adopt the client
    initial: multiset<Subscription>,    // initial subscriptions about to be requested
    refused: multiset<Subscription>,    // initial subscriptions whose request was refused
    issued: set<Subscription>,
    awaiting: set<nat>,                 // generations of recoveries whose SUBACK is in flight
    requests: multiset<nat>,            // threads about to call requestSubscriptionRecoveryRetry
    scheduled: multiset<nat>,           // delayed retries
    // history
    start: nat,
    loss: nat,
    lossHeard: bool,                    // a loss reached the running feature since its last start
    confirmed: set<Subscription>)       // acknowledged with success

  function Init(notify: bool): System {
    System(Feature(false, false, 0, 0, 0, false, notify, []), Free, 0, multiset{}, multiset{}, {}, {},
           multiset{}, multiset{}, 0, 0, false, {})
  }

  datatype Action =
    | Start
    | AdoptClient
    | RequestInitial(sub: Subscription, queued: bool)
    | ReportInitialRefusal(sub: Subscription)
    | Stop
    | Resume(sessionPresent: bool)
    | RequestRecovery(queued: bool)
    | ReportRecoveryRefusal
    | Acknowledge(sub: Subscription, success: bool)
    | RequestRetry(failedGeneration: nat)
    | Retry(failedGeneration: nat)

  predicate Enabled(s: System, a: Action) {
    match a
    case Start => true
    case AdoptClient => s.launching > 0
    case RequestInitial(sub, _) => sub in s.initial
    case ReportInitialRefusal(sub) => sub in s.refused
    case Stop => s.lifecycle.Free?
    case Resume(_) => s.lifecycle.Free?
    case RequestRecovery(_) => s.lifecycle.Issuing?
    case ReportRecoveryRefusal => s.lifecycle.Refused?
    case Acknowledge(sub, _) => sub in s.issued
    case RequestRetry(g) => g in s.requests
    case Retry(g) => g in s.scheduled && s.lifecycle.Free?
  }

  function Issue(s: System, generation: Option<nat>): Lifecycle {
    match generation
    case None => Free
    case Some(g) => Issuing(Subscription(g, true, s.start, s.loss, 0, 0))
  }

  function Made(s: System, sub: Subscription): Subscription {
    sub.(madeStart := s.start, madeLoss := s.loss)
  }

  function AskRetry(s: System, f: Feature, retry: bool, generation: nat): System {
    s.(f := f, requests := if retry then s.requests + multiset{generation} else s.requests)
  }

  function Step(s: System, a: Action): System
    requires Enabled(s, a)
  {
    match a
    case Start =>
      s.(f := StartSection(s.f), start := s.start + 1, lossHeard := false,
         launching := if s.f.notify then s.launching + 1 else s.launching)
    case AdoptClient =>
      s.(f := s.f.(client := true), launching := s.launching - 1,
         initial := s.initial + multiset{Subscription(s.f.generation, false, s.start, s.loss, 0, 0)})
    case RequestInitial(sub, queued) =>
      var rest := s.(initial := s.initial - multiset{sub});
      if queued then rest.(issued := s.issued + {Made(s, sub)}) else rest.(refused := s.refused + multiset{sub})
    case ReportInitialRefusal(sub) =>
      var (f, retry) := SubscribeFailedSection(s.f, sub.generation);
      AskRetry(s.(refused := s.refused - multiset{sub}), f, retry, sub.generation)
    case Stop => s.(f := StopSection(s.f), lossHeard := false)
    case Resume(sessionPresent) =>
      var (f, next) := ResumeSection(s.f, sessionPresent);
      var t := s.(f := f, loss := if sessionPresent then s.loss else s.loss + 1,
                  lossHeard := s.lossHeard || (!sessionPresent && s.f.started && s.f.notify && s.f.client));
      t.(lifecycle := Issue(t, next))
    case RequestRecovery(queued) =>
      var sub := s.lifecycle.sub;
      if queued then
        s.(lifecycle := Free, issued := s.issued + {Made(s, sub)}, awaiting := s.awaiting + {sub.generation})
      else
        s.(lifecycle := Refused(sub))
    case ReportRecoveryRefusal =>
      var sub := s.lifecycle.sub;
      var (f, retry) := SubscribeFailedSection(s.f, sub.generation);
      AskRetry(s.(lifecycle := Free), f, retry, sub.generation)
    case Acknowledge(sub, success) =>
      var noted := s.(confirmed := if success then s.confirmed + {sub} else s.confirmed);
      if sub.recovery then
        var (f, retry) := RecoveryAckSection(s.f, sub.generation, success);
        AskRetry(noted.(awaiting := s.awaiting - {sub.generation}), f, retry, sub.generation)
      else if success then
        noted
      else
        var (f, retry) := SubscribeFailedSection(s.f, sub.generation);
        AskRetry(noted, f, retry, sub.generation)
    case RequestRetry(g) =>
      s.(requests := s.requests - multiset{g},
         scheduled := if RetryAllowed(s.f, g) then s.scheduled + multiset{g} else s.scheduled)
    case Retry(g) =>
      var (f, next) := RetrySection(s.f, g);
      s.(f := f, scheduled := s.scheduled - multiset{g}, lifecycle := Issue(s, next))
  }

  predicate Runs(s: System, actions: seq<Action>)
    decreases |actions|
  {
    actions != [] ==> Enabled(s, actions[0]) && Runs(Step(s, actions[0]), actions[1..])
  }

  function After(s: System, actions: seq<Action>): System
    requires Runs(s, actions)
    decreases |actions|
  {
    if actions == [] then s else After(Step(s, actions[0]), actions[1..])
  }

  ghost predicate Reachable(s: System) {
    exists notify, actions :: Runs(Init(notify), actions) && After(Init(notify), actions) == s
  }

  // ---------------------------------------------------------------- the invariant

  /** The subscription was read in the current start epoch and session, exactly if its generation is not too old. */
  predicate Timely(f: Feature, start: nat, loss: nat, sub: Subscription) {
    && sub.generation <= f.generation && sub.start <= start && sub.loss <= loss
    && (f.started ==> (f.oldestValid <= sub.generation <==> sub.start == start && sub.loss == loss))
  }

  /** A request is made no earlier than its generation is read. */
  predicate MadeAfter(start: nat, loss: nat, sub: Subscription) {
    sub.start <= sub.madeStart <= start && sub.loss <= sub.madeLoss <= loss
  }

  ghost predicate Windows(s: System) {
    && s.f.oldestValid <= s.f.generation
    && (forall sub :: sub in s.initial ==> Timely(s.f, s.start, s.loss, sub) && !sub.recovery)
    && (forall sub :: sub in s.refused ==> Timely(s.f, s.start, s.loss, sub) && !sub.recovery)
    && (forall sub :: sub in s.issued ==> Timely(s.f, s.start, s.loss, sub) && MadeAfter(s.start, s.loss, sub))
    && (!s.lifecycle.Free? ==> Timely(s.f, s.start, s.loss, s.lifecycle.sub) && s.lifecycle.sub.recovery)
  }

  ghost predicate Clients(s: System) {
    && (s.f.client ==> s.f.notify)
    && (s.launching > 0 ==> s.f.notify)
    && (s.f.needsRecovery ==> s.f.client)
    && (!s.f.client ==> s.initial == multiset{} && s.refused == multiset{} && s.issued == {} && s.lifecycle.Free?)
  }

  predicate SameAttempt(sub: Subscription, sub': Subscription) {
    sub.recovery && sub'.recovery && sub.generation == sub'.generation
  }

  /** Each generation sees at most one recovery request. */
  ghost predicate OneAttempt(s: System) {
    && (forall sub, sub' | sub in s.issued && sub' in s.issued :: SameAttempt(sub, sub') ==> sub == sub')
    && (!s.lifecycle.Free? ==>
          forall sub :: sub in s.issued && sub.recovery ==> sub.generation != s.lifecycle.sub.generation)
  }

  predicate AttemptAlive(s: System, generation: nat) {
    || generation in s.awaiting
    || (!s.lifecycle.Free? && s.lifecycle.sub.generation == generation)
    || generation in s.requests
    || generation in s.scheduled
  }

  predicate RecoveryAlive(s: System) {
    s.f.started && s.f.needsRecovery ==> AttemptAlive(s, s.f.generation)
  }

  /** A recovery subscription of the current start epoch and session has been acknowledged with success. */
  ghost predicate Confirmed(confirmed: set<Subscription>, start: nat, loss: nat) {
    exists sub :: sub in confirmed && sub.recovery && sub.start == start && sub.loss == loss
  }

  /** A loss that was heard of is being recovered from, or has been. */
  ghost predicate Recovered(s: System) {
    && (s.lossHeard ==> s.f.started && s.f.client)
    && (s.lossHeard && !s.f.needsRecovery ==> Confirmed(s.confirmed, s.start, s.loss))
  }

  ghost predicate Inv(s: System) {
    Windows(s) && Clients(s) && OneAttempt(s) && RecoveryAlive(s) && Recovered(s)
  }

  lemma ReadingKeepsWindows(s: System, a: Action)
    requires Windows(s) && Enabled(s, a) && (a.Start? || a.Stop? || a.AdoptClient?)
    ensures Windows(Step(s, a))
  {
  }

  lemma ResumeKeepsWindows(s: System, a: Action)
    requires Windows(s) && Clients(s) && Enabled(s, a) && a.Resume?
    ensures Windows(Step(s, a))
  {
  }

  lemma InitialKeepsWindows(s: System, sub: Subscription, queued: bool)
    requires Windows(s) && Enabled(s, RequestInitial(sub, queued))
    ensures Windows(Step(s, RequestInitial(sub, queued)))
  {
  }

  lemma RecoveryKeepsWindows(s: System, queued: bool)
    requires Windows(s) && Enabled(s, RequestRecovery(queued))
    ensures Windows(Step(s, RequestRecovery(queued)))
  {
  }

  predicate SameWindow(f: Feature, g: Feature) {
    f.started == g.started && f.generation == g.generation && f.oldestValid == g.oldestValid
  }

  lemma AcknowledgeKeepsWindows(s: System, a: Action)
    requires Windows(s) && Enabled(s, a) && a.Acknowledge?
    ensures Windows(Step(s, a))
  {
    var t := Step(s, a);
    assert SameWindow(s.f, t.f) && t.issued == s.issued && t.initial == s.initial && t.refused == s.refused;
    assert t.lifecycle == s.lifecycle && t.start == s.start && t.loss == s.loss;
  }

  lemma InitialRefusalKeepsWindows(s: System, sub: Subscription)
    requires Windows(s) && Enabled(s, ReportInitialRefusal(sub))
    ensures Windows(Step(s, ReportInitialRefusal(sub)))
  {
    var t := Step(s, ReportInitialRefusal(sub));
    assert SameWindow(s.f, t.f) && t.issued == s.issued && t.initial == s.initial && t.lifecycle == s.lifecycle;
    assert t.start == s.start && t.loss == s.loss && forall other :: other in t.refused ==> other in s.refused;
  }

  lemma RecoveryRefusalKeepsWindows(s: System)
    requires Windows(s) && Enabled(s, ReportRecoveryRefusal)
    ensures Windows(Step(s, ReportRecoveryRefusal))
  {
    var t := Step(s, ReportRecoveryRefusal);
    assert SameWindow(s.f, t.f) && t.issued == s.issued && t.initial == s.initial && t.refused == s.refused;
    assert t.start == s.start && t.loss == s.loss && t.lifecycle == Free;
  }

  lemma RetryKeepsWindows(s: System, a: Action)
    requires Windows(s) && Enabled(s, a) && (a.RequestRetry? || a.Retry?)
    ensures Windows(Step(s, a))
  {
  }

  lemma StepKeepsWindows(s: System, a: Action)
    requires Windows(s) && Clients(s) && Enabled(s, a)
    ensures Windows(Step(s, a))
  {
    if a.Start? || a.Stop? || a.AdoptClient? {
      ReadingKeepsWindows(s, a);
    } else if a.Resume? {
      ResumeKeepsWindows(s, a);
    } else if a.RequestInitial? {
      InitialKeepsWindows(s, a.sub, a.queued);
    } else if a.RequestRecovery? {
      RecoveryKeepsWindows(s, a.queued);
    } else if a.RequestRetry? || a.Retry? {
      RetryKeepsWindows(s, a);
    } else if a.Acknowledge? {
      AcknowledgeKeepsWindows(s, a);
    } else if a.ReportInitialRefusal? {
      InitialRefusalKeepsWindows(s, a.sub);
    } else {
      RecoveryRefusalKeepsWindows(s);
    }
  }

  lemma InitialKeepsClients(s: System, a: Action)
    requires Clients(s) && Enabled(s, a)
    requires a.AdoptClient? || a.RequestInitial? || a.ReportInitialRefusal?
    ensures Clients(Step(s, a))
  {
  }

  lemma RecoveryKeepsClients(s: System, a: Action)
    requires Clients(s) && Enabled(s, a)
    requires a.Resume? || a.RequestRecovery? || a.ReportRecoveryRefusal? || a.Retry?
    ensures Clients(Step(s, a))
  {
  }

  lemma OthersKeepClients(s: System, a: Action)
    requires Clients(s) && Enabled(s, a)
    requires a.Start? || a.Stop? || a.Acknowledge? || a.RequestRetry?
    ensures Clients(Step(s, a))
  {
  }

  lemma StepKeepsClients(s: System, a: Action)
    requires Clients(s) && Enabled(s, a)
    ensures Clients(Step(s, a))
  {
    if a.AdoptClient? || a.RequestInitial? || a.ReportInitialRefusal? {
      InitialKeepsClients(s, a);
    } else if a.Resume? || a.RequestRecovery? || a.ReportRecoveryRefusal? || a.Retry? {
      RecoveryKeepsClients(s, a);
    } else {
      OthersKeepClients(s, a);
    }
  }

  lemma BatchKeepsOneAttempt(s: System, a: Action)
    requires Windows(s) && OneAttempt(s) && Enabled(s, a) && (a.Resume? || a.Retry?)
    ensures OneAttempt(Step(s, a))
  {
    assert Step(s, a).issued == s.issued;
  }

  lemma RequestKeepsOneAttempt(s: System, a: Action)
    requires Windows(s) && OneAttempt(s) && Enabled(s, a) && (a.RequestInitial? || a.RequestRecovery?)
    ensures OneAttempt(Step(s, a))
  {
  }

  lemma OthersKeepRequests(s: System, a: Action)
    requires Enabled(s, a) && !a.Resume? && !a.Retry? && !a.RequestInitial? && !a.RequestRecovery?
    ensures Step(s, a).issued == s.issued
    ensures Step(s, a).lifecycle == if a.ReportRecoveryRefusal? then Free else s.lifecycle
  {
  }

  lemma StepKeepsOneAttempt(s: System, a: Action)
    requires Windows(s) && OneAttempt(s) && Enabled(s, a)
    ensures OneAttempt(Step(s, a))
  {
    if a.Resume? || a.Retry? {
      BatchKeepsOneAttempt(s, a);
    } else if a.RequestInitial? || a.RequestRecovery? {
      RequestKeepsOneAttempt(s, a);
    } else {
      OthersKeepRequests(s, a);
    }
  }

  lemma AcknowledgeKeepsRecoveryAlive(s: System, sub: Subscription, success: bool)
    requires RecoveryAlive(s) && Enabled(s, Acknowledge(sub, success))
    ensures RecoveryAlive(Step(s, Acknowledge(sub, success)))
  {
  }

  lemma RefusalKeepsRecoveryAlive(s: System)
    requires RecoveryAlive(s) && Enabled(s, ReportRecoveryRefusal)
    ensures RecoveryAlive(Step(s, ReportRecoveryRefusal))
  {
  }

  lemma InitialKeepsRecoveryAlive(s: System, a: Action)
    requires RecoveryAlive(s) && Enabled(s, a) && (a.RequestInitial? || a.ReportInitialRefusal? || a.RequestRecovery?)
    ensures RecoveryAlive(Step(s, a))
  {
  }

  lemma RetryKeepsRecoveryAlive(s: System, a: Action)
    requires Clients(s) && RecoveryAlive(s) && Enabled(s, a) && (a.RequestRetry? || a.Retry? || a.Resume?)
    ensures RecoveryAlive(Step(s, a))
  {
  }

  lemma LifecycleKeepsRecoveryAlive(s: System, a: Action)
    requires RecoveryAlive(s) && Enabled(s, a) && (a.Start? || a.Stop? || a.AdoptClient?)
    ensures RecoveryAlive(Step(s, a))
  {
  }

  lemma StepKeepsRecoveryAlive(s: System, a: Action)
    requires Clients(s) && RecoveryAlive(s) && Enabled(s, a)
    ensures RecoveryAlive(Step(s, a))
  {
    if a.Acknowledge? {
      AcknowledgeKeepsRecoveryAlive(s, a.sub, a.success);
    } else if a.ReportRecoveryRefusal? {
      RefusalKeepsRecoveryAlive(s);
    } else if a.RequestInitial? || a.ReportInitialRefusal? || a.RequestRecovery? {
      InitialKeepsRecoveryAlive(s, a);
    } else if a.RequestRetry? || a.Retry? || a.Resume? {
      RetryKeepsRecoveryAlive(s, a);
    } else {
      LifecycleKeepsRecoveryAlive(s, a);
    }
  }

  lemma AcknowledgeKeepsRecovered(s: System, sub: Subscription, success: bool)
    requires Windows(s) && Recovered(s) && Enabled(s, Acknowledge(sub, success))
    ensures Recovered(Step(s, Acknowledge(sub, success)))
  {
    var t := Step(s, Acknowledge(sub, success));
    assert Timely(s.f, s.start, s.loss, sub);
    if t.lossHeard && !t.f.needsRecovery {
      if s.f.needsRecovery {
        assert sub in t.confirmed && sub.recovery && sub.start == t.start && sub.loss == t.loss;
      } else {
        var other :| other in s.confirmed && other.recovery && other.start == s.start && other.loss == s.loss;
        assert other in t.confirmed;
      }
    }
  }

  lemma LifecycleKeepsRecovered(s: System, a: Action)
    requires Clients(s) && Recovered(s) && Enabled(s, a)
    requires a.Start? || a.Stop? || a.AdoptClient? || a.Resume?
    ensures Recovered(Step(s, a))
  {
    assert Step(s, a).confirmed == s.confirmed;
  }

  predicate SameHistory(s: System, t: System) {
    && t.confirmed == s.confirmed && t.lossHeard == s.lossHeard && t.start == s.start && t.loss == s.loss
    && t.f.started == s.f.started && t.f.client == s.f.client && (s.f.needsRecovery ==> t.f.needsRecovery)
  }

  lemma FailuresKeepHistory(s: System, a: Action)
    requires Enabled(s, a) && (a.ReportInitialRefusal? || a.ReportRecoveryRefusal? || a.Retry?)
    ensures SameHistory(s, Step(s, a))
  {
  }

  lemma RequestsKeepHistory(s: System, a: Action)
    requires Enabled(s, a) && (a.RequestInitial? || a.RequestRecovery? || a.RequestRetry?)
    ensures SameHistory(s, Step(s, a))
  {
  }

  lemma StepKeepsRecovered(s: System, a: Action)
    requires Windows(s) && Clients(s) && Recovered(s) && Enabled(s, a)
    ensures Recovered(Step(s, a))
  {
    if a.Acknowledge? {
      AcknowledgeKeepsRecovered(s, a.sub, a.success);
    } else if a.Start? || a.Stop? || a.AdoptClient? || a.Resume? {
      LifecycleKeepsRecovered(s, a);
    } else if a.RequestInitial? || a.RequestRecovery? || a.RequestRetry? {
      RequestsKeepHistory(s, a);
    } else {
      FailuresKeepHistory(s, a);
    }
  }

  lemma StepKeeps(s: System, a: Action)
    requires Inv(s) && Enabled(s, a)
    ensures Inv(Step(s, a))
  {
    StepKeepsWindows(s, a);
    StepKeepsClients(s, a);
    StepKeepsOneAttempt(s, a);
    StepKeepsRecoveryAlive(s, a);
    StepKeepsRecovered(s, a);
  }

  lemma {:induction false} RunKeeps(s: System, actions: seq<Action>)
    requires Inv(s) && Runs(s, actions)
    ensures Inv(After(s, actions))
    decreases |actions|
  {
    if actions != [] {
      StepKeeps(s, actions[0]);
      RunKeeps(Step(s, actions[0]), actions[1..]);
    }
  }

  lemma ReachableInv(s: System)
    requires Reachable(s)
    ensures Inv(s)
  {
    var notify, actions :| Runs(Init(notify), actions) && After(Init(notify), actions) == s;
    RunKeeps(Init(notify), actions);
  }

  // ---------------------------------------------------------------- what every run guarantees

  /**
   A notification passes the window if and only if its subscription's generation was read in the current start epoch
   and the current session; then it was also requested in them.
   */
  lemma AcceptedNotificationIsTimely(s: System, sub: Subscription)
    requires Reachable(s) && sub in s.issued && s.f.started
    ensures InWindow(s.f, sub.generation) <==> sub.start == s.start && sub.loss == s.loss
    ensures InWindow(s.f, sub.generation) ==> sub.madeStart == s.start && sub.madeLoss == s.loss
  {
    ReachableInv(s);
    assert Timely(s.f, s.start, s.loss, sub) && MadeAfter(s.start, s.loss, sub);
  }

  /** A request made in the current epoch and session is refused exactly if one of them began after the read. */
  lemma CurrentRequestRefusedIff(s: System, sub: Subscription)
    requires Reachable(s) && sub in s.issued && s.f.started
    requires sub.madeStart == s.start && sub.madeLoss == s.loss
    ensures !InWindow(s.f, sub.generation) <==> sub.start < sub.madeStart || sub.loss < sub.madeLoss
  {
    AcceptedNotificationIsTimely(s, sub);
    ReachableInv(s);
    assert MadeAfter(s.start, s.loss, sub);
  }

  /** The guarded fields after a step. */
  function NextFeature(s: System, a: Action): Feature
    requires Enabled(s, a)
  {
    match a
    case Start => StartSection(s.f)
    case AdoptClient => s.f.(client := true)
    case ReportInitialRefusal(sub) => SubscribeFailedSection(s.f, sub.generation).0
    case Stop => StopSection(s.f)
    case Resume(sessionPresent) => ResumeSection(s.f, sessionPresent).0
    case ReportRecoveryRefusal => SubscribeFailedSection(s.f, s.lifecycle.sub.generation).0
    case Acknowledge(sub, success) =>
      if sub.recovery then RecoveryAckSection(s.f, sub.generation, success).0
      else if success then s.f
      else SubscribeFailedSection(s.f, sub.generation).0
    case Retry(g) => RetrySection(s.f, g).0
    case _ => s.f
  }

  lemma StepFeature(s: System, a: Action)
    requires Enabled(s, a)
    ensures Step(s, a).f == NextFeature(s, a)
  {
  }

  lemma StepMovesWindowForward(s: System, a: Action)
    requires Windows(s) && Enabled(s, a)
    ensures var f := Step(s, a).f;
            s.f.generation <= f.generation && s.f.oldestValid <= f.oldestValid <= f.generation
  {
    StepFeature(s, a);
  }

  lemma {:induction false} WindowMovesForward(s: System, actions: seq<Action>)
    requires Inv(s) && Runs(s, actions)
    ensures var t := After(s, actions);
            s.f.generation <= t.f.generation && s.f.oldestValid <= t.f.oldestValid <= t.f.generation
    decreases |actions|
  {
    if actions != [] {
      StepMovesWindowForward(s, actions[0]);
      StepKeeps(s, actions[0]);
      WindowMovesForward(Step(s, actions[0]), actions[1..]);
    }
  }

  /** A start, a stop, and a lost session that the running feature hears of. */
  predicate Outdates(s: System, a: Action) {
    a.Start? || a.Stop? || (a == Resume(false) && s.f.started && s.f.notify && s.f.client)
  }

  /** Some step of the run outdates what was read before it. */
  predicate SomeOutdates(s: System, actions: seq<Action>)
    requires Runs(s, actions)
    decreases |actions|
  {
    actions != [] && (Outdates(s, actions[0]) || SomeOutdates(Step(s, actions[0]), actions[1..]))
  }

  lemma StepKeepsWindowIff(s: System, a: Action)
    requires Windows(s) && Enabled(s, a)
    ensures if Outdates(s, a) then s.f.generation < Step(s, a).f.oldestValid
            else Step(s, a).f.oldestValid == s.f.oldestValid && Step(s, a).f.started == s.f.started
  {
    StepFeature(s, a);
  }

  /**
   A generation read while the feature runs lets notifications pass, after any run, if and only if no start, no stop
   and no lost session that the feature has heard of came in between.
   */
  lemma {:induction false} WindowHoldsIff(s: System, actions: seq<Action>, generation: nat)
    requires Inv(s) && Runs(s, actions) && InWindow(s.f, generation)
    ensures InWindow(After(s, actions).f, generation) <==> !SomeOutdates(s, actions)
    decreases |actions|
  {
    if actions != [] {
      var t := Step(s, actions[0]);
      StepKeepsWindowIff(s, actions[0]);
      StepMovesWindowForward(s, actions[0]);
      StepKeeps(s, actions[0]);
      if Outdates(s, actions[0]) {
        WindowMovesForward(t, actions[1..]);
      } else {
        WindowHoldsIff(t, actions[1..], generation);
      }
    }
  }

  /** A session is lost between the read and the request: the request is current, and its notifications are refused. */
  lemma StaleRequest() returns (s: System, sub: Subscription)
    ensures Reachable(s) && sub in s.issued && s.f.started
    ensures sub.madeStart == s.start && sub.madeLoss == s.loss && !InWindow(s.f, sub.generation)
  {
    var read := Subscription(1, false, 1, 0, 0, 0);
    var s0 := Init(true);
    var s1 := Step(s0, Start);
    var s2 := Step(s1, AdoptClient);
    var s3 := Step(s2, Resume(false));
    assert read in s3.initial;
    s := Step(s3, RequestInitial(read, true));
    sub := Made(s3, read);
    RunOf(s3, [RequestInitial(read, true)], s);
    RunOf(s2, [Resume(false), RequestInitial(read, true)], s);
    RunOf(s1, [AdoptClient, Resume(false), RequestInitial(read, true)], s);
    RunOf(s0, [Start, AdoptClient, Resume(false), RequestInitial(read, true)], s);
  }

  /** Puts one step in front of a run. */
  lemma RunOf(s: System, actions: seq<Action>, end: System)
    requires actions != [] && Enabled(s, actions[0])
    requires Runs(Step(s, actions[0]), actions[1..]) && After(Step(s, actions[0]), actions[1..]) == end
    ensures Runs(s, actions) && After(s, actions) == end
  {
  }

  /** No notification of a subscription made before such a step passes the window again, in any run. */
  lemma OldSubscriptionsStayOut(s: System, a: Action, later: seq<Action>, sub: Subscription)
    requires Inv(s) && Enabled(s, a) && Outdates(s, a) && sub in s.issued && Runs(Step(s, a), later)
    ensures !InWindow(After(Step(s, a), later).f, sub.generation)
  {
    assert Timely(s.f, s.start, s.loss, sub);
    StepFeature(s, a);
    StepKeeps(s, a);
    WindowMovesForward(Step(s, a), later);
  }

  /** An answer or a retry for a generation that has passed changes nothing, in any run. */
  lemma OutdatedAnswersNeverCount(s: System, later: seq<Action>, generation: nat, success: bool)
    requires Inv(s) && Runs(s, later) && generation < s.f.generation
    ensures var f := After(s, later).f;
            && RecoveryAckSection(f, generation, success) == (f, false)
            && SubscribeFailedSection(f, generation) == (f, false)
            && RetrySection(f, generation) == (f, None)
  {
    WindowMovesForward(s, later);
  }

  /** The answer to this request is possible now: it ends the recovery, or asks for a retry of this generation. */
  predicate AnswerCounts(s: System, sub: Subscription) {
    && sub in s.issued && sub.recovery && sub.generation == s.f.generation
    && !Step(s, Acknowledge(sub, true)).f.needsRecovery
    && s.f.generation in Step(s, Acknowledge(sub, false)).requests
  }

  ghost predicate Answerable(issued: set<Subscription>, awaiting: set<nat>) {
    forall generation :: generation in awaiting ==> HasRequest(issued, generation)
  }

  ghost predicate HasRequest(issued: set<Subscription>, generation: nat) {
    exists sub :: sub in issued && sub.recovery && sub.generation == generation
  }

  lemma StepIssues(s: System, a: Action)
    requires Inv(s) && Enabled(s, a)
    ensures s.issued <= Step(s, a).issued
    ensures forall generation :: generation in Step(s, a).awaiting - s.awaiting ==>
              s.lifecycle.Issuing? && s.lifecycle.sub.generation == generation && s.lifecycle.sub.recovery &&
              Made(s, s.lifecycle.sub) in Step(s, a).issued
  {
  }

  lemma {:induction false} RunKeepsAnswerable(s: System, actions: seq<Action>)
    requires Inv(s) && Runs(s, actions) && Answerable(s.issued, s.awaiting)
    ensures Answerable(After(s, actions).issued, After(s, actions).awaiting)
    decreases |actions|
  {
    if actions != [] {
      var t := Step(s, actions[0]);
      StepIssues(s, actions[0]);
      forall generation | generation in t.awaiting ensures HasRequest(t.issued, generation) {
        if generation in s.awaiting {
          var sub :| sub in s.issued && sub.recovery && sub.generation == generation;
          assert sub in t.issued;
        } else {
          assert Made(s, s.lifecycle.sub) in t.issued;
        }
      }
      StepKeeps(s, actions[0]);
      RunKeepsAnswerable(t, actions[1..]);
    }
  }

  lemma ReachableAnswerable(s: System)
    requires Reachable(s)
    ensures Answerable(s.issued, s.awaiting)
  {
    var notify, actions :| Runs(Init(notify), actions) && After(Init(notify), actions) == s;
    RunKeepsAnswerable(Init(notify), actions);
  }

  /**
   While a recovery is needed, the answer to its request will count, or its request is being made, or a retry of
   exactly its generation exists and will be allowed.
   */
  lemma RecoveryNeverStuck(s: System)
    requires Reachable(s) && s.f.started && s.f.client && s.f.needsRecovery
    ensures || (s.f.generation in s.awaiting && exists sub :: AnswerCounts(s, sub))
            || (!s.lifecycle.Free? && s.lifecycle.sub.generation == s.f.generation)
            || s.f.generation in s.requests
            || s.f.generation in s.scheduled
    ensures RetryAllowed(s.f, s.f.generation)
  {
    ReachableInv(s);
    ReachableAnswerable(s);
    if s.f.generation in s.awaiting {
      assert HasRequest(s.issued, s.f.generation);
      var sub :| sub in s.issued && sub.recovery && sub.generation == s.f.generation;
      assert AnswerCounts(s, sub);
    }
  }

  // ---------------------------------------------------------------- what a step leads to

  /**
   After a lost session that the running feature heard of, it counts as recovered only once a recovery subscription
   of the current start epoch and the current session has been acknowledged with success.
   */
  lemma RecoveredMeansConfirmed(s: System)
    requires Reachable(s) && s.f.started && s.f.notify && s.f.client && !s.f.needsRecovery && s.lossHeard
    ensures Confirmed(s.confirmed, s.start, s.loss)
  {
    ReachableInv(s);
  }

  /** A resumed connection starts an attempt under a new generation exactly if there is something to recover. */
  lemma ResumeLeadsTo(s: System, sessionPresent: bool)
    requires Enabled(s, Resume(sessionPresent))
    ensures var t := Step(s, Resume(sessionPresent));
            if s.f.started && s.f.notify && s.f.client && (!sessionPresent || s.f.needsRecovery) then
              && t.lifecycle.Issuing? && t.lifecycle.sub.generation == t.f.generation == s.f.generation + 1
              && t.lifecycle.sub.recovery && t.f.needsRecovery && t.f.started
              && t.f.oldestValid == (if sessionPresent then s.f.oldestValid else t.f.generation)
            else
              t.f == s.f && t.lifecycle.Free?
  {
  }

  /** A delayed retry starts an attempt exactly if its generation is still the current one and needs it. */
  lemma RetryLeadsTo(s: System, failed: nat)
    requires Enabled(s, Retry(failed))
    ensures var t := Step(s, Retry(failed));
            if s.f.started && s.f.notify && s.f.client && s.f.needsRecovery && failed == s.f.generation then
              && t.lifecycle.Issuing? && t.lifecycle.sub.generation == t.f.generation == s.f.generation + 1
              && t.lifecycle.sub.recovery && t.f == s.f.(generation := s.f.generation + 1)
            else
              t.f == s.f && t.lifecycle.Free?
  {
  }

  /** A current subscription that is refused, or an initial one that fails, leads to a recovery; an old one does not. */
  lemma FailedSubscriptionLeadsTo(s: System, a: Action, generation: nat)
    requires Enabled(s, a)
    requires || (a.ReportInitialRefusal? && generation == a.sub.generation)
             || (a.ReportRecoveryRefusal? && generation == s.lifecycle.sub.generation)
             || (a.Acknowledge? && !a.success && !a.sub.recovery && generation == a.sub.generation)
    ensures var t := Step(s, a);
            if s.f.started && generation == s.f.generation then
              t.f == s.f.(needsRecovery := true) && t.requests == s.requests + multiset{generation}
            else
              t.f == s.f && t.requests == s.requests
  {
  }

  /** A start and a stop end every recovery; only a start opens the window, for its own generation. */
  lemma StartAndStopLeadTo(s: System)
    ensures var t := Step(s, Start);
            && t.f.started && !t.f.needsRecovery && t.f.generation > s.f.generation
            && (forall g: nat :: InWindow(t.f, g) <==> g == t.f.generation)
            && (s.f.notify ==> Enabled(t, AdoptClient)) && t.f.lifecycleGeneration == s.f.lifecycleGeneration
    ensures s.lifecycle.Free? ==>
              var t := Step(s, Stop);
              && !t.f.started && !t.f.needsRecovery && t.f.generation > s.f.generation
              && t.f.lifecycleGeneration > s.f.lifecycleGeneration && forall g: nat :: !InWindow(t.f, g)
  {
  }

  lemma OneRecoveryPerGeneration(s: System, sub: Subscription, sub': Subscription)
    requires Reachable(s) && sub in s.issued && sub' in s.issued && sub.recovery && sub'.recovery
    requires sub.generation == sub'.generation
    ensures sub == sub'
    ensures Enabled(s, RequestRecovery(true)) ==> s.lifecycle.sub.generation != sub.generation
  {
    ReachableInv(s);
  }

  predicate StartsAttempt(s: System, a: Action) {
    a.Retry? && RetryAllowed(s.f, a.failedGeneration)
  }

  /** Of any number of retries for one failed generation at most one starts a new attempt. */
  lemma RetryStartsOneAttempt(s: System, failed: nat, between: seq<Action>)
    requires Reachable(s) && Enabled(s, Retry(failed)) && StartsAttempt(s, Retry(failed))
    requires Runs(Step(s, Retry(failed)), between)
    ensures !StartsAttempt(After(Step(s, Retry(failed)), between), Retry(failed))
  {
    ReachableInv(s);
    StepKeeps(s, Retry(failed));
    WindowMovesForward(Step(s, Retry(failed)), between);
  }
}

/**
 The Jobs feature as a transition system.

 A step is one critical section of source/jobs/JobsFeature.cpp, or one of the actions a thread takes between two
 sections.  The environment is as free as the code allows: any number of resume, retry, handler and stop threads
 run at once, and an acknowledgement may come back at once, late, more than once, or with any code.
 */
module JobsSystem {
  import opened JobsRecovery

  /** What the holder of `subscriptionLifecycleLock` still has to do.  `worker` marks the startup thread. */
  datatype Lifecycle =
    | Free
    | Submitting(generation: nat, next: nat, worker: bool)
    | SubmitFailed(generation: nat, next: nat, worker: bool)
    | Polling(worker: bool)

  /** Where the startup thread is inside runJobs.  `queued` and `good` collect the outcomes seen so far. */
  datatype Worker =
    | Absent
    | Entering
    | Connecting
    | Subscribing(k: nat, queued: bool)
    | QueueRefused(k: nat)
    | Checking(k: nat, queued: bool)
    | Awaiting(k: nat, good: bool)
    | Finishing(good: bool)
    | HoldingLock
    | Exited

  /** A submitted subscription; `session` counts the lost MQTT sessions at the time of the request. */
  datatype Callback =
    | Startup(sub: Subscription, session: nat)
    | Renewal(generation: nat, sub: Subscription, session: nat)

  datatype Ticket = Ticket(generation: nat, sub: Subscription)

  datatype Launch = NotStarted | LaunchPending | Launched

  /** How many stop() calls are where: before their section, past it, inside thread::join, returned. */
  datatype Stops = Stops(entered: nat, sections: nat, joining: nat, waiting: nat, returned: nat)

  datatype System = System(
    r: Recovery,
    lifecycle: Lifecycle,
    worker: Worker,
    launch: Launch,
    joinable: bool,               // jobsThread still owns the worker
    results: map<Subscription, int>,  // the resolved startup results
    issued: set<Callback>,
    outstanding: set<Ticket>,     // recovery requests that are queued and not answered yet
    requests: multiset<nat>,      // threads about to call requestSubscriptionRecoveryRetry
    scheduled: multiset<nat>,     // delayed retries
    gates: nat,                   // handlers that have seen needStop == false
    stops: Stops,
    // history
    session: nat,                 // lost sessions so far
    acked: set<Subscription>,     // submitted and acknowledged with code 0 since the last lost session
    lossIgnored: bool,            // a lost session was reported after the stop flag was set
    codes: map<Subscription, int>)    // the completions counted in the current batch

  const INIT := System(FRESH, Free, Absent, NotStarted, false, map[], {}, {}, multiset{}, multiset{}, 0,
                       Stops(0, 0, 0, 0, 0), 0, {}, false, map[])

  datatype Action =
    | RequestStart
    | LaunchThread
    | WorkerCheck
    | WorkerSubscribe(queuedNow: bool)
    | WorkerReportRefusal
    | WorkerAwait(timedOut: bool)
    | WorkerFinish
    | SubmitNext(accepted: bool)
    | ReportRefusal
    | PublishPoll
    | Acknowledge(callback: Callback, code: int)
    | Resume(sessionPresent: bool)
    | RequestRetry(failedGeneration: nat)
    | Retry(failedGeneration: nat)
    | OpenGate
    | PassGate
    | SetStopFlag
    | RunStopSection
    | TakeThread
    | FinishJoin

  ghost predicate Enabled(s: System, a: Action) {
    match a
    case RequestStart => s.launch == NotStarted
    case LaunchThread => s.launch == LaunchPending
    case WorkerCheck => s.worker.Entering? || s.worker.Connecting? || s.worker.Checking?
    case WorkerSubscribe(_) => s.worker.Subscribing? && s.worker.k < SUBSCRIPTION_COUNT
    case WorkerReportRefusal => s.worker.QueueRefused? && s.worker.k < SUBSCRIPTION_COUNT
    case WorkerAwait(timedOut) =>
      s.worker.Awaiting? && s.worker.k < SUBSCRIPTION_COUNT && (timedOut || Nth(s.worker.k) in s.results)
    case WorkerFinish => s.worker.Finishing? && s.lifecycle.Free?
    case SubmitNext(_) => s.lifecycle.Submitting? && s.lifecycle.next < SUBSCRIPTION_COUNT
    case ReportRefusal => s.lifecycle.SubmitFailed? && s.lifecycle.next < SUBSCRIPTION_COUNT
    case PublishPoll => s.lifecycle.Polling?
    case Acknowledge(callback, _) => callback in s.issued
    case Resume(_) => s.lifecycle.Free?
    case RequestRetry(g) => g in s.requests
    case Retry(g) => g in s.scheduled && s.lifecycle.Free?
    case OpenGate => !s.r.needStop
    case PassGate => s.gates > 0
    case SetStopFlag => true
    case RunStopSection => s.stops.entered > 0 && s.lifecycle.Free?
    case TakeThread => s.stops.joining > 0
    case FinishJoin => s.stops.waiting > 0 && s.worker.Exited?
  }

  function Resolve(results: map<Subscription, int>, sub: Subscription, code: int): map<Subscription, int> {
    if sub in results then results else results[sub := code]
  }

  function NoteAck(acked: set<Subscription>, session: nat, callback: Callback, code: int): set<Subscription> {
    if code == 0 && callback.session == session then acked + {callback.sub} else acked
  }

  function ResolveAll(results: map<Subscription, int>): map<Subscription, int> {
    map sub | sub in ALL :: if sub in results then results[sub] else STARTUP_CANCELLED
  }

  /** completeRecoverySubscription; a failed batch leaves its thread on the way to the retry request. */
  function Complete(s: System, generation: nat, sub: Subscription, code: int): System {
    var (r, verdict) := CompleteSection(s.r, generation, sub, code);
    s.(r := r,
       codes := if verdict.Dropped? then s.codes else s.codes[sub := code],
       requests := if verdict.BatchFailed? then s.requests + multiset{generation} else s.requests)
  }

  /** Takes the state and the lifecycle lock on to what a section has decided. */
  function Follow(s: System, r: Recovery, next: Followup, worker: bool): System {
    s.(r := r,
       lifecycle := match next { case Nothing => Free
                                 case Poll => Polling(worker)
                                 case Resubscribe(g) => Submitting(g, 0, worker) },
       worker := if worker then (if next.Nothing? then Exited else HoldingLock) else s.worker,
       codes := if r.generation == s.r.generation then s.codes else map[])
  }

  /** The holder of the lifecycle lock has dealt with request number `next - 1`. */
  function Advance(s: System, generation: nat, next: nat, worker: bool): System {
    if next < SUBSCRIPTION_COUNT then s.(lifecycle := Submitting(generation, next, worker)) else Release(s, worker)
  }

  function Release(s: System, worker: bool): System {
    s.(lifecycle := Free, worker := if worker then Exited else s.worker)
  }

  /** The startup thread has dealt with request number `k - 1`; the stop flag is not read after the first. */
  function AfterSubscribe(k: nat, queued: bool): Worker {
    if k == 1 then Subscribing(1, queued) else Checking(k, queued)
  }

  ghost function Step(s: System, a: Action): System
    requires Enabled(s, a)
  {
    match a
    case RequestStart => s.(launch := LaunchPending)
    case LaunchThread =>
      if s.r.needStop then s.(launch := Launched) else s.(launch := Launched, worker := Entering, joinable := true)
    case WorkerCheck =>
      s.(worker := if s.r.needStop then Exited
                   else if s.worker.Entering? then Connecting
                   else if s.worker.Connecting? then Subscribing(0, true)
                   else if s.worker.k < SUBSCRIPTION_COUNT then Subscribing(s.worker.k, s.worker.queued)
                   else if s.worker.queued then Awaiting(0, true)
                   else Finishing(false))
    case WorkerSubscribe(queuedNow) =>
      var k := s.worker.k;
      var callback := Startup(Nth(k), s.session);
      if queuedNow then
        s.(issued := s.issued + {callback}, worker := AfterSubscribe(k + 1, s.worker.queued))
      else
        s.(worker := QueueRefused(k))
    case WorkerReportRefusal =>
      s.(results := Resolve(s.results, Nth(s.worker.k), QUEUE_FAILED),
         worker := AfterSubscribe(s.worker.k + 1, false))
    case WorkerAwait(timedOut) =>
      var good := s.worker.good && !timedOut && s.results[Nth(s.worker.k)] == 0;
      s.(worker := if s.worker.k + 1 < SUBSCRIPTION_COUNT then Awaiting(s.worker.k + 1, good) else Finishing(good))
    case WorkerFinish =>
      var (r, next) := StartupSection(s.r, s.worker.good);
      Follow(s, r, next, true)
    case SubmitNext(accepted) =>
      var l := s.lifecycle;
      var callback := Renewal(l.generation, Nth(l.next), s.session);
      if accepted then
        Advance(s.(issued := s.issued + {callback},
                   outstanding := s.outstanding + {Ticket(l.generation, Nth(l.next))}),
                l.generation, l.next + 1, l.worker)
      else
        s.(lifecycle := SubmitFailed(l.generation, l.next, l.worker))
    case ReportRefusal =>
      var l := s.lifecycle;
      Advance(Complete(s, l.generation, Nth(l.next), QUEUE_FAILED), l.generation, l.next + 1, l.worker)
    case PublishPoll => Release(s, s.lifecycle.worker)
    case Acknowledge(callback, code) =>
      var acked := NoteAck(s.acked, s.session, callback, code);
      if callback.Startup? then
        s.(acked := acked, results := Resolve(s.results, callback.sub, code))
      else
        Complete(s.(acked := acked, outstanding := s.outstanding - {Ticket(callback.generation, callback.sub)}),
                 callback.generation, callback.sub, code)
    case Resume(sessionPresent) =>
      var (r, next) := ResumeSection(s.r, sessionPresent);
      var s1 := Follow(s, r, next, false);
      if sessionPresent then s1
      else s1.(session := s.session + 1, acked := {}, lossIgnored := s.lossIgnored || s.r.needStop)
    case RequestRetry(g) =>
      s.(requests := s.requests - multiset{g},
         scheduled := if RetryAllowed(s.r, g) then s.scheduled + multiset{g} else s.scheduled)
    case Retry(g) =>
      var (r, next) := RetrySection(s.r, g);
      Follow(s.(scheduled := s.scheduled - multiset{g}), r, next, false)
    case OpenGate => s.(gates := s.gates + 1)
    case PassGate => s.(gates := s.gates - 1)
    case SetStopFlag =>
      s.(r := s.r.(needStop := true), stops := s.stops.(entered := s.stops.entered + 1))
    case RunStopSection =>
      s.(r := StopSection(s.r), codes := map[], results := ResolveAll(s.results),
         stops := s.stops.(entered := s.stops.entered - 1, sections := s.stops.sections + 1,
                           joining := s.stops.joining + 1))
    case TakeThread =>
      if s.joinable then
        s.(joinable := false, stops := s.stops.(joining := s.stops.joining - 1, waiting := s.stops.waiting + 1))
      else
        s.(stops := s.stops.(joining := s.stops.joining - 1, returned := s.stops.returned + 1))
    case FinishJoin =>
      s.(stops := s.stops.(waiting := s.stops.waiting - 1, returned := s.stops.returned + 1))
  }

  // ---------------------------------------------------------------- what a step does to the outside

  predicate Subscribes(a: Action) {
    a.WorkerSubscribe? || a.SubmitNext?
  }

  /** The completion that ends a batch in success publishes from inside its critical section. */
  ghost predicate PublishesStartNext(s: System, a: Action) {
    match a
    case PublishPoll => true
    case Acknowledge(Renewal(g, sub, _), code) => CompleteSection(s.r, g, sub, code).1.Restored?
    case ReportRefusal =>
      s.lifecycle.SubmitFailed? && s.lifecycle.next < SUBSCRIPTION_COUNT &&
      CompleteSection(s.r, s.lifecycle.generation, Nth(s.lifecycle.next), QUEUE_FAILED).1.Restored?
    case _ => false
  }

  ghost predicate AdmitsJob(s: System, a: Action) {
    a.PassGate? && SubscriptionsReady(s.r)
  }

  /** A stop() call returns to its caller in this step. */
  ghost predicate StopReturns(s: System, a: Action) {
    a.FinishJoin? || (a.TakeThread? && !s.joinable)
  }

  // ---------------------------------------------------------------- runs

  ghost predicate Runs(s: System, actions: seq<Action>)
    decreases |actions|
  {
    actions != [] ==> Enabled(s, actions[0]) && Runs(Step(s, actions[0]), actions[1..])
  }

  ghost function After(s: System, actions: seq<Action>): System
    requires Runs(s, actions)
    decreases |actions|
  {
    if actions == [] then s else After(Step(s, actions[0]), actions[1..])
  }

  ghost predicate Reachable(s: System) {
    exists actions :: Runs(INIT, actions) && After(INIT, actions) == s
  }

  // ---------------------------------------------------------------- the invariant

  ghost predicate Accounting(r: Recovery, codes: map<Subscription, int>) {
    && codes.Keys == r.completed
    && (r.failed <==> exists sub :: sub in codes && codes[sub] != 0)
    && (r.pending + |r.completed| == SUBSCRIPTION_COUNT || (r.pending == 0 && r.completed == {}))
    && (r.pending > 0 ==> r.ready && r.needed)
    && (!r.ready ==> r.completed == {})
  }

  predicate InBatch(l: Lifecycle) {
    l.Submitting? || l.SubmitFailed?
  }

  /** The generation moves only under the lifecycle lock, so a batch is submitted under one generation. */
  ghost predicate Locking(r: Recovery, l: Lifecycle, issued: set<Callback>) {
    && (InBatch(l) ==>
          && l.generation == r.generation
          && l.next < SUBSCRIPTION_COUNT
          && r.pending > 0
          && (forall sub :: sub in r.completed ==> Index(sub) < l.next)
          && (forall c :: c in issued && c.Renewal? && c.generation == r.generation ==> Index(c.sub) < l.next))
    && (l.Polling? ==> SubscriptionsReady(r))
    && (forall c :: c in issued && c.Renewal? ==> c.generation <= r.generation)
  }

  ghost predicate Owning(ready: bool, l: Lifecycle, worker: Worker) {
    && (!l.Free? ==> (l.worker <==> worker.HoldingLock?) && ready)
    && (l.Free? ==> !worker.HoldingLock?)
    && (ready ==> worker.HoldingLock? || worker.Exited?)
    && (worker.Subscribing? || worker.QueueRefused? || worker.Awaiting? ==> worker.k < SUBSCRIPTION_COUNT)
    && (worker.Checking? ==> worker.k <= SUBSCRIPTION_COUNT)
  }

  /** An answer for `sub` in the current batch is on its way, or its request is about to be made. */
  ghost predicate AnswerDue(generation: nat, l: Lifecycle, outstanding: set<Ticket>, sub: Subscription) {
    || Ticket(generation, sub) in outstanding
    || (InBatch(l) && l.next <= Index(sub))
  }

  ghost predicate AnswersDue(r: Recovery, l: Lifecycle, outstanding: set<Ticket>) {
    forall sub :: sub !in r.completed ==> AnswerDue(r.generation, l, outstanding, sub)
  }

  ghost predicate BatchConcluded(r: Recovery) {
    r.pending == 0 && r.failed && r.completed == ALL
  }

  /** Retries ever only exist for a batch that is over; `retries` is the number for the current generation. */
  ghost predicate Retries(r: Recovery, requests: multiset<nat>, scheduled: multiset<nat>) {
    var retries := requests[r.generation] + scheduled[r.generation];
    && (forall g :: g in requests || g in scheduled ==> g <= r.generation)
    && retries <= 1
    && (retries > 0 ==> r.pending == 0 && r.completed == ALL)
    && (r.ready && r.needed && !r.needStop && r.pending == 0 ==> BatchConcluded(r) && retries == 1)
  }

  ghost predicate Progress(r: Recovery, l: Lifecycle, outstanding: set<Ticket>) {
    r.ready && r.needed && !r.needStop && r.pending > 0 ==> AnswersDue(r, l, outstanding)
  }

  /** Where the requests of the current session stand. */
  ghost predicate Sessions(r: Recovery, l: Lifecycle, issued: set<Callback>, session: nat, lossIgnored: bool) {
    && (forall c :: c in issued ==> c.session <= session)
    && (lossIgnored ==> r.needStop)
    && (lossIgnored && r.ready ==> l.Free? && forall c :: c in issued ==> c.session < session)
    && (!lossIgnored && r.ready ==>
          forall c :: c in issued && c.Renewal? && c.generation == r.generation ==> c.session == session)
    && (!r.ready && !r.needed && !r.needStop ==> session == 0)
  }

  ghost predicate Acked(r: Recovery, codes: map<Subscription, int>, acked: set<Subscription>, lossIgnored: bool) {
    && (!lossIgnored ==> forall sub :: sub in codes && codes[sub] == 0 ==> sub in acked)
    && (!lossIgnored && SubscriptionsReady(r) ==> acked == ALL)
    && (lossIgnored && r.ready ==> acked == {})
  }

  ghost predicate StartupResults(worker: Worker, results: map<Subscription, int>, session: nat,
                                 acked: set<Subscription>)
  {
    && (session == 0 ==> forall sub :: sub in results && results[sub] == 0 ==> sub in acked)
    && (worker.Awaiting? && worker.good ==>
          forall sub :: Index(sub) < worker.k ==> sub in results && results[sub] == 0)
    && (worker.Finishing? && worker.good ==>
          forall sub: Subscription :: sub in results && results[sub] == 0)
  }

  ghost predicate Stopping(r: Recovery, l: Lifecycle, results: map<Subscription, int>, stops: Stops) {
    && (stops.entered + stops.sections > 0 ==> r.needStop)
    && stops.sections == stops.joining + stops.waiting + stops.returned
    && (stops.sections > 0 ==> !r.ready && l.Free? && results.Keys == ALL)
  }

  ghost predicate Joining(worker: Worker, launch: Launch, joinable: bool, waiting: nat) {
    && (launch != Launched ==> worker.Absent? && !joinable && waiting == 0)
    && (joinable ==> !worker.Absent? && waiting == 0)
    && (waiting > 0 ==> !worker.Absent?)
    && (!joinable && waiting == 0 ==> worker.Absent? || worker.Exited?)
    && waiting <= 1
  }

  ghost predicate Inv(s: System) {
    && Accounting(s.r, s.codes)
    && Locking(s.r, s.lifecycle, s.issued)
    && Owning(s.r.ready, s.lifecycle, s.worker)
    && Retries(s.r, s.requests, s.scheduled)
    && Progress(s.r, s.lifecycle, s.outstanding)
    && Sessions(s.r, s.lifecycle, s.issued, s.session, s.lossIgnored)
    && Acked(s.r, s.codes, s.acked, s.lossIgnored)
    && StartupResults(s.worker, s.results, s.session, s.acked)
    && Stopping(s.r, s.lifecycle, s.results, s.stops)
    && Joining(s.worker, s.launch, s.joinable, s.stops.waiting)
  }

  // ---------------------------------------------------------------- every step keeps the invariant

  lemma EveryOneIsIn(sub: Subscription)
    ensures sub in ALL
  {
    assert sub == Nth(Index(sub));
  }

  lemma EveryOne(subs: set<Subscription>)
    requires forall sub: Subscription :: sub in subs
    ensures subs == ALL
  {
    forall sub ensures sub in ALL {
      EveryOneIsIn(sub);
    }
  }

  lemma FullBatch(completed: set<Subscription>)
    ensures completed <= ALL && |completed| <= SUBSCRIPTION_COUNT
    ensures |completed| == SUBSCRIPTION_COUNT <==> completed == ALL
  {
    forall sub ensures sub in ALL {
      EveryOneIsIn(sub);
    }
    var rest := ALL - completed;
    assert ALL == completed + rest && completed !! rest;
    assert |ALL| == |completed| + |rest|;
  }

  lemma RequestStartKeeps(s: System)
    requires Inv(s) && Enabled(s, RequestStart)
    ensures Inv(Step(s, RequestStart))
  {
  }

  lemma LaunchThreadKeeps(s: System)
    requires Inv(s) && Enabled(s, LaunchThread)
    ensures Inv(Step(s, LaunchThread))
  {
  }

  lemma WorkerCheckKeeps(s: System)
    requires Inv(s) && Enabled(s, WorkerCheck)
    ensures Inv(Step(s, WorkerCheck))
  {
  }

  lemma WorkerSubscribeKeeps(s: System, queuedNow: bool)
    requires Inv(s) && Enabled(s, WorkerSubscribe(queuedNow))
    ensures Inv(Step(s, WorkerSubscribe(queuedNow)))
  {
  }

  lemma WorkerReportRefusalKeeps(s: System)
    requires Inv(s) && Enabled(s, WorkerReportRefusal)
    ensures Inv(Step(s, WorkerReportRefusal))
  {
  }

  lemma WorkerAwaitKeeps(s: System, timedOut: bool)
    requires Inv(s) && Enabled(s, WorkerAwait(timedOut))
    ensures Inv(Step(s, WorkerAwait(timedOut)))
  {
  }

  lemma WorkerFinishKeeps(s: System)
    requires Inv(s) && Enabled(s, WorkerFinish)
    ensures Inv(Step(s, WorkerFinish))
  {
    if SubscriptionsReady(Step(s, WorkerFinish).r) {
      forall sub: Subscription ensures sub in s.acked {
        assert sub in s.results;
      }
      EveryOne(s.acked);
    }
  }

  lemma SubmitNextKeeps(s: System, accepted: bool)
    requires Inv(s) && Enabled(s, SubmitNext(accepted))
    ensures Inv(Step(s, SubmitNext(accepted)))
  {
    SubmitNextKeepsProgress(s, accepted);
    SubmitNextKeepsSessions(s, accepted);
  }

  lemma SubmitNextKeepsProgress(s: System, accepted: bool)
    requires Inv(s) && Enabled(s, SubmitNext(accepted))
    ensures var t := Step(s, SubmitNext(accepted));
            Locking(t.r, t.lifecycle, t.issued) && Progress(t.r, t.lifecycle, t.outstanding)
  {
    var t := Step(s, SubmitNext(accepted));
    assert t.r == s.r;
    if accepted {
      RequestMovesOn(s.r, s.lifecycle, s.issued, s.outstanding, s.session, t.lifecycle);
    } else {
      assert t.issued == s.issued && t.outstanding == s.outstanding;
    }
  }

  /** The request for subscription `l.next` has been made. */
  lemma RequestMovesOn(r: Recovery, l: Lifecycle, issued: set<Callback>, outstanding: set<Ticket>, session: nat,
                       l': Lifecycle)
    requires l.Submitting? && Locking(r, l, issued) && Progress(r, l, outstanding)
    requires l' == if l.next + 1 < SUBSCRIPTION_COUNT then Submitting(l.generation, l.next + 1, l.worker) else Free
    ensures Locking(r, l', issued + {Renewal(l.generation, Nth(l.next), session)})
    ensures Progress(r, l', outstanding + {Ticket(l.generation, Nth(l.next))})
  {
    assert Index(Nth(l.next)) == l.next;
    forall sub | AnswerDue(r.generation, l, outstanding, sub)
      ensures AnswerDue(r.generation, l', outstanding + {Ticket(l.generation, Nth(l.next))}, sub)
    {
      assert Index(sub) == l.next ==> sub == Nth(l.next);
    }
  }

  lemma SubmitNextKeepsSessions(s: System, accepted: bool)
    requires Inv(s) && Enabled(s, SubmitNext(accepted))
    ensures var t := Step(s, SubmitNext(accepted));
            Sessions(t.r, t.lifecycle, t.issued, t.session, t.lossIgnored)
  {
  }

  /** Completions keep the batch accounts, and say how a batch ends. */
  lemma CompleteKeepsAccounting(s: System, generation: nat, sub: Subscription, code: int)
    requires Accounting(s.r, s.codes)
    ensures var verdict, t := CompleteSection(s.r, generation, sub, code).1, Complete(s, generation, sub, code);
            && Accounting(t.r, t.codes)
            && (verdict.Restored? ==> t.r.completed == ALL && forall x :: x in t.codes ==> t.codes[x] == 0)
            && (verdict.BatchFailed? ==> BatchConcluded(t.r))
  {
    FullBatch(s.r.completed);
    FullBatch(s.r.completed + {sub});
  }

  lemma CompleteKeepsRetries(s: System, generation: nat, sub: Subscription, code: int)
    requires Accounting(s.r, s.codes) && Retries(s.r, s.requests, s.scheduled)
    ensures var t := Complete(s, generation, sub, code); Retries(t.r, t.requests, t.scheduled)
  {
    CompleteKeepsAccounting(s, generation, sub, code);
    FullBatch(s.r.completed);
  }

  /** While a batch is being submitted its refused request counts, unless the stop flag is set. */
  lemma RefusalCounts(s: System)
    requires Inv(s) && Enabled(s, ReportRefusal)
    ensures var sub := Nth(s.lifecycle.next);
            var r := CompleteSection(s.r, s.lifecycle.generation, sub, QUEUE_FAILED).0;
            r == if s.r.needStop then s.r
                 else s.r.(completed := s.r.completed + {sub}, failed := true, pending := s.r.pending - 1)
  {
    assert Index(Nth(s.lifecycle.next)) == s.lifecycle.next;
  }

  lemma ReportRefusalKeeps(s: System)
    requires Inv(s) && Enabled(s, ReportRefusal)
    ensures Inv(Step(s, ReportRefusal))
  {
    var l := s.lifecycle;
    CompleteKeepsAccounting(s, l.generation, Nth(l.next), QUEUE_FAILED);
    CompleteKeepsRetries(s, l.generation, Nth(l.next), QUEUE_FAILED);
    RefusalCounts(s);
    ReportRefusalKeepsLocking(s);
    ReportRefusalKeepsSessions(s);
    ReportRefusalKeepsAcked(s);
    ReportRefusalKeepsRest(s);
  }

  /** Only the recovery state, the lifecycle lock and what is derived from the completion change. */
  lemma RefusalFrame(s: System)
    requires Inv(s) && Enabled(s, ReportRefusal)
    ensures var t := Step(s, ReportRefusal);
            && t.results == s.results && t.session == s.session && t.acked == s.acked && t.stops == s.stops
            && t.launch == s.launch && t.joinable == s.joinable
            && t.issued == s.issued && t.outstanding == s.outstanding
            && t.r == CompleteSection(s.r, s.lifecycle.generation, Nth(s.lifecycle.next), QUEUE_FAILED).0
            && t.r.ready == s.r.ready && t.r.needStop == s.r.needStop
            && (t.lifecycle, t.worker) ==
               if s.lifecycle.next + 1 < SUBSCRIPTION_COUNT then
                 (Submitting(s.lifecycle.generation, s.lifecycle.next + 1, s.lifecycle.worker), s.worker)
               else
                 (Free, if s.lifecycle.worker then Exited else s.worker)
  {
    RefusalCounts(s);
  }

  lemma ReportRefusalKeepsRest(s: System)
    requires Inv(s) && Enabled(s, ReportRefusal)
    ensures var t := Step(s, ReportRefusal);
            && Owning(t.r.ready, t.lifecycle, t.worker)
            && StartupResults(t.worker, t.results, t.session, t.acked)
            && Stopping(t.r, t.lifecycle, t.results, t.stops)
            && Joining(t.worker, t.launch, t.joinable, t.stops.waiting)
  {
    RefusalFrame(s);
  }

  lemma ReportRefusalKeepsLocking(s: System)
    requires Inv(s) && Enabled(s, ReportRefusal)
    ensures var t := Step(s, ReportRefusal);
            Locking(t.r, t.lifecycle, t.issued) && Progress(t.r, t.lifecycle, t.outstanding)
  {
    var t := Step(s, ReportRefusal);
    RefusalCounts(s);
    RefusalFrame(s);
    RefusedBatchMovesOn(s.r, s.lifecycle, s.issued, s.outstanding, t.r, t.lifecycle);
  }

  lemma RefusedBatchMovesOn(r: Recovery, l: Lifecycle, issued: set<Callback>, outstanding: set<Ticket>,
                            r': Recovery, l': Lifecycle)
    requires l.SubmitFailed? && Locking(r, l, issued) && Progress(r, l, outstanding) && r.ready && r.needed
    requires |r.completed| + r.pending == SUBSCRIPTION_COUNT
    requires r' == if r.needStop then r
                   else r.(completed := r.completed + {Nth(l.next)}, failed := true, pending := r.pending - 1)
    requires l' == if l.next + 1 < SUBSCRIPTION_COUNT then Submitting(l.generation, l.next + 1, l.worker) else Free
    ensures Locking(r', l', issued) && Progress(r', l', outstanding)
  {
    FullBatch(r'.completed);
    forall sub | sub !in r'.completed && AnswerDue(r.generation, l, outstanding, sub)
      ensures AnswerDue(r'.generation, l', outstanding, sub) || r.needStop
    {
      assert Index(sub) == l.next ==> sub == Nth(l.next);
    }
  }

  lemma ReportRefusalKeepsSessions(s: System)
    requires Inv(s) && Enabled(s, ReportRefusal)
    ensures var t := Step(s, ReportRefusal); Sessions(t.r, t.lifecycle, t.issued, t.session, t.lossIgnored)
  {
    RefusalCounts(s);
  }

  lemma ReportRefusalKeepsAcked(s: System)
    requires Inv(s) && Enabled(s, ReportRefusal)
    ensures var t := Step(s, ReportRefusal); Acked(t.r, t.codes, t.acked, t.lossIgnored)
  {
    RefusalCounts(s);
  }

  lemma PublishPollKeeps(s: System)
    requires Inv(s) && Enabled(s, PublishPoll)
    ensures Inv(Step(s, PublishPoll))
  {
  }

  lemma AcknowledgeKeeps(s: System, callback: Callback, code: int)
    requires Inv(s) && Enabled(s, Acknowledge(callback, code))
    ensures Inv(Step(s, Acknowledge(callback, code)))
  {
    if callback.Renewal? {
      AcknowledgeRenewalKeeps(s, callback, code);
    } else {
      AcknowledgeStartupKeeps(s, callback, code);
    }
  }

  lemma NoteAckKeeps(s: System, callback: Callback, code: int)
    requires Sessions(s.r, s.lifecycle, s.issued, s.session, s.lossIgnored) && callback in s.issued
    requires Acked(s.r, s.codes, s.acked, s.lossIgnored)
    ensures Acked(s.r, s.codes, NoteAck(s.acked, s.session, callback, code), s.lossIgnored)
  {
    if s.acked == ALL {
      EveryOneIsIn(callback.sub);
      assert s.acked + {callback.sub} == ALL;
    }
  }

  lemma AcknowledgeStartupKeeps(s: System, callback: Callback, code: int)
    requires Inv(s) && Enabled(s, Acknowledge(callback, code)) && callback.Startup?
    ensures Inv(Step(s, Acknowledge(callback, code)))
  {
    NoteAckKeeps(s, callback, code);
    var t := Step(s, Acknowledge(callback, code));
    assert t == s.(acked := t.acked, results := t.results);
    EveryOneIsIn(callback.sub);
    assert s.results.Keys == ALL ==> t.results.Keys == ALL;
  }

  lemma AcknowledgeRenewalKeeps(s: System, callback: Callback, code: int)
    requires Inv(s) && Enabled(s, Acknowledge(callback, code)) && callback.Renewal?
    ensures Inv(Step(s, Acknowledge(callback, code)))
  {
    CompleteKeepsAccounting(s, callback.generation, callback.sub, code);
    CompleteKeepsRetries(s, callback.generation, callback.sub, code);
    AcknowledgeKeepsProgress(s, callback, code);
    AcknowledgeKeepsAcked(s, callback, code);
  }

  lemma AcknowledgeKeepsProgress(s: System, callback: Callback, code: int)
    requires Inv(s) && Enabled(s, Acknowledge(callback, code)) && callback.Renewal?
    ensures var t := Step(s, Acknowledge(callback, code));
            Locking(t.r, t.lifecycle, t.issued) && Progress(t.r, t.lifecycle, t.outstanding)
  {
    var t := Step(s, Acknowledge(callback, code));
    assert t.lifecycle == s.lifecycle && t.issued == s.issued;
    CompletionMovesOn(s.r, s.codes, s.lifecycle, s.issued, s.outstanding, callback, code, t.r);
  }

  /** A completion takes its ticket out of the requests that are outstanding, and counts it if it is still missing. */
  lemma CompletionMovesOn(r: Recovery, codes: map<Subscription, int>, l: Lifecycle, issued: set<Callback>,
                          outstanding: set<Ticket>, callback: Callback, code: int, r': Recovery)
    requires Accounting(r, codes) && Locking(r, l, issued) && Progress(r, l, outstanding)
    requires callback in issued && callback.Renewal?
    requires r' == CompleteSection(r, callback.generation, callback.sub, code).0
    ensures Locking(r', l, issued)
    ensures Progress(r', l, outstanding - {Ticket(callback.generation, callback.sub)})
  {
    CompletionKeepsLocking(r, codes, l, issued, callback, code);
    CompletionKeepsProgress(r, l, outstanding, callback.generation, callback.sub, code);
  }

  lemma CompletionKeepsProgress(r: Recovery, l: Lifecycle, outstanding: set<Ticket>,
                                generation: nat, done: Subscription, code: int)
    requires Progress(r, l, outstanding)
    ensures Progress(CompleteSection(r, generation, done, code).0, l, outstanding - {Ticket(generation, done)})
  {
    var r' := CompleteSection(r, generation, done, code).0;
    if r'.ready && r'.needed && !r'.needStop && r'.pending > 0 {
      var left := outstanding - {Ticket(generation, done)};
      assert AnswersDue(r, l, outstanding);
      forall sub | sub !in r'.completed ensures AnswerDue(r'.generation, l, left, sub) {
        assert AnswerDue(r.generation, l, outstanding, sub);
        assert Ticket(r.generation, sub) != Ticket(generation, done);
      }
    }
  }

  lemma CompletionKeepsLocking(r: Recovery, codes: map<Subscription, int>, l: Lifecycle, issued: set<Callback>,
                               callback: Callback, code: int)
    requires Accounting(r, codes) && Locking(r, l, issued) && callback in issued && callback.Renewal?
    ensures Locking(CompleteSection(r, callback.generation, callback.sub, code).0, l, issued)
  {
    var r' := CompleteSection(r, callback.generation, callback.sub, code).0;
    if r' != r && InBatch(l) {
      EveryOneIsIn(Nth(l.next));
      assert Index(Nth(l.next)) == l.next && Nth(l.next) !in r.completed + {callback.sub};
      FullBatch(r.completed + {callback.sub});
      assert |r.completed + {callback.sub}| == |r.completed| + 1;
    }
  }

  lemma AcknowledgeKeepsAcked(s: System, callback: Callback, code: int)
    requires Inv(s) && Enabled(s, Acknowledge(callback, code)) && callback.Renewal?
    ensures var t := Step(s, Acknowledge(callback, code)); Acked(t.r, t.codes, t.acked, t.lossIgnored)
  {
    var t := Step(s, Acknowledge(callback, code));
    NoteAckKeeps(s, callback, code);
    CompleteKeepsAccounting(s, callback.generation, callback.sub, code);
    if PublishesStartNext(s, Acknowledge(callback, code)) {
      forall sub: Subscription ensures sub in t.acked {
        EveryOneIsIn(sub);
        assert sub in t.codes;
      }
      EveryOne(t.acked);
    }
  }

  lemma ResumeKeeps(s: System, sessionPresent: bool)
    requires Inv(s) && Enabled(s, Resume(sessionPresent))
    ensures Inv(Step(s, Resume(sessionPresent)))
  {
  }

  lemma RequestRetryKeeps(s: System, failedGeneration: nat)
    requires Inv(s) && Enabled(s, RequestRetry(failedGeneration))
    ensures Inv(Step(s, RequestRetry(failedGeneration)))
  {
  }

  lemma RetryKeeps(s: System, failedGeneration: nat)
    requires Inv(s) && Enabled(s, Retry(failedGeneration))
    ensures Inv(Step(s, Retry(failedGeneration)))
  {
  }

  lemma OpenGateKeeps(s: System)
    requires Inv(s) && Enabled(s, OpenGate)
    ensures Inv(Step(s, OpenGate))
  {
  }

  lemma PassGateKeeps(s: System)
    requires Inv(s) && Enabled(s, PassGate)
    ensures Inv(Step(s, PassGate))
  {
  }

  lemma SetStopFlagKeeps(s: System)
    requires Inv(s) && Enabled(s, SetStopFlag)
    ensures Inv(Step(s, SetStopFlag))
  {
  }

  lemma RunStopSectionKeeps(s: System)
    requires Inv(s) && Enabled(s, RunStopSection)
    ensures Inv(Step(s, RunStopSection))
  {
    forall sub ensures sub in ResolveAll(s.results) {
      EveryOneIsIn(sub);
    }
  }

  lemma TakeThreadKeeps(s: System)
    requires Inv(s) && Enabled(s, TakeThread)
    ensures Inv(Step(s, TakeThread))
  {
  }

  lemma FinishJoinKeeps(s: System)
    requires Inv(s) && Enabled(s, FinishJoin)
    ensures Inv(Step(s, FinishJoin))
  {
  }

  lemma StepKeeps(s: System, a: Action)
    requires Inv(s) && Enabled(s, a)
    ensures Inv(Step(s, a))
  {
    match a
    case RequestStart => RequestStartKeeps(s);
    case LaunchThread => LaunchThreadKeeps(s);
    case WorkerCheck => WorkerCheckKeeps(s);
    case WorkerSubscribe(queuedNow) => WorkerSubscribeKeeps(s, queuedNow);
    case WorkerReportRefusal => WorkerReportRefusalKeeps(s);
    case WorkerAwait(timedOut) => WorkerAwaitKeeps(s, timedOut);
    case WorkerFinish => WorkerFinishKeeps(s);
    case SubmitNext(accepted) => SubmitNextKeeps(s, accepted);
    case ReportRefusal => ReportRefusalKeeps(s);
    case PublishPoll => PublishPollKeeps(s);
    case Acknowledge(callback, code) => AcknowledgeKeeps(s, callback, code);
    case Resume(sessionPresent) => ResumeKeeps(s, sessionPresent);
    case RequestRetry(g) => RequestRetryKeeps(s, g);
    case Retry(g) => RetryKeeps(s, g);
    case OpenGate => OpenGateKeeps(s);
    case PassGate => PassGateKeeps(s);
    case SetStopFlag => SetStopFlagKeeps(s);
    case RunStopSection => RunStopSectionKeeps(s);
    case TakeThread => TakeThreadKeeps(s);
    case FinishJoin => FinishJoinKeeps(s);
  }

  lemma {:induction false} RunKeeps(s: System, actions: seq<Action>)
    requires Inv(s) && Runs(s, actions)
    ensures Inv(After(s, actions))
    decreases |actions|
  {
    if actions != [] {
      StepKeeps(s, actions[0]);
      RunKeeps(Step(s, actions[0]), actions[1..]);
    }
  }

  /** A request that is outstanding has been submitted, so its callback can come. */
  ghost predicate Answerable(issued: set<Callback>, outstanding: set<Ticket>) {
    forall ticket :: ticket in outstanding ==> HasCallback(issued, ticket)
  }

  ghost predicate HasCallback(issued: set<Callback>, ticket: Ticket) {
    exists session: nat :: Renewal(ticket.generation, ticket.sub, session) in issued
  }

  /** The submitted requests after a step. */
  ghost function NextIssued(s: System, a: Action): set<Callback>
    requires Enabled(s, a)
  {
    match a
    case WorkerSubscribe(queuedNow) => if queuedNow then s.issued + {Startup(Nth(s.worker.k), s.session)} else s.issued
    case SubmitNext(accepted) =>
      if accepted then s.issued + {Renewal(s.lifecycle.generation, Nth(s.lifecycle.next), s.session)} else s.issued
    case _ => s.issued
  }

  /** The actions of the threads that work on recovery, other than a request. */
  predicate RecoveryAction(a: Action) {
    a.ReportRefusal? || a.PublishPoll? || a.Acknowledge? || a.Resume? || a.RequestRetry? || a.Retry?
  }

  predicate StopAction(a: Action) {
    a.OpenGate? || a.PassGate? || a.SetStopFlag? || a.RunStopSection? || a.TakeThread? || a.FinishJoin?
  }

  lemma RecoveryIssuesNothing(s: System, a: Action)
    requires Enabled(s, a) && RecoveryAction(a)
    ensures Step(s, a).issued == s.issued
  {
  }

  lemma StopIssuesNothing(s: System, a: Action)
    requires Enabled(s, a) && StopAction(a)
    ensures Step(s, a).issued == s.issued
  {
  }

  lemma RequestIssues(s: System, a: Action)
    requires Enabled(s, a) && (a.SubmitNext? || a.WorkerSubscribe?)
    ensures Step(s, a).issued == NextIssued(s, a)
  {
  }

  lemma WorkerIssuesNothing(s: System, a: Action)
    requires Enabled(s, a) && !RecoveryAction(a) && !StopAction(a) && !a.SubmitNext? && !a.WorkerSubscribe?
    ensures Step(s, a).issued == s.issued
  {
  }

  lemma StepIssued(s: System, a: Action)
    requires Enabled(s, a)
    ensures Step(s, a).issued == NextIssued(s, a)
  {
    if RecoveryAction(a) {
      RecoveryIssuesNothing(s, a);
    } else if StopAction(a) {
      StopIssuesNothing(s, a);
    } else if a.SubmitNext? || a.WorkerSubscribe? {
      RequestIssues(s, a);
    } else {
      WorkerIssuesNothing(s, a);
    }
  }

  lemma StepOutstanding(s: System, a: Action)
    requires Enabled(s, a)
    ensures Step(s, a).outstanding <=
            if a == SubmitNext(true) then s.outstanding + {Ticket(s.lifecycle.generation, Nth(s.lifecycle.next))}
            else s.outstanding
  {
  }

  lemma StepKeepsAnswerable(s: System, a: Action)
    requires Enabled(s, a) && Answerable(s.issued, s.outstanding)
    ensures Answerable(NextIssued(s, a), Step(s, a).outstanding)
  {
    StepOutstanding(s, a);
    forall ticket | ticket in Step(s, a).outstanding ensures HasCallback(NextIssued(s, a), ticket) {
      if ticket in s.outstanding {
        assert HasCallback(s.issued, ticket);
        var session: nat :| Renewal(ticket.generation, ticket.sub, session) in s.issued;
        assert Renewal(ticket.generation, ticket.sub, session) in NextIssued(s, a);
      } else {
        assert Renewal(ticket.generation, ticket.sub, s.session) in NextIssued(s, a);
      }
    }
  }

  lemma {:induction false} RunKeepsAnswerable(s: System, actions: seq<Action>)
    requires Runs(s, actions) && Answerable(s.issued, s.outstanding)
    ensures Answerable(After(s, actions).issued, After(s, actions).outstanding)
    decreases |actions|
  {
    if actions != [] {
      StepIssued(s, actions[0]);
      StepKeepsAnswerable(s, actions[0]);
      RunKeepsAnswerable(Step(s, actions[0]), actions[1..]);
    }
  }

  lemma ReachableAnswerable(s: System)
    requires Reachable(s)
    ensures Answerable(s.issued, s.outstanding)
  {
    var actions :| Runs(INIT, actions) && After(INIT, actions) == s;
    RunKeepsAnswerable(INIT, actions);
  }

  lemma InitInv(s: System)
    requires s == INIT
    ensures Inv(s)
  {
    assert s.r == FRESH && s.lifecycle == Free && s.worker == Absent && s.issued == {} && s.codes == map[];
  }

  lemma ReachableInv(s: System)
    requires Reachable(s)
    ensures Inv(s)
  {
    var actions :| Runs(INIT, actions) && After(INIT, actions) == s;
    InitInv(INIT);
    RunKeeps(INIT, actions);
  }
}

/** What every run of the Jobs transition system guarantees. */
module JobsProperties {
  import opened JobsRecovery
  import opened JobsSystem

  // ---------------------------------------------------------------- runs can be extended

  lemma {:induction false} RunsAppend(s: System, actions: seq<Action>, a: Action)
    requires Runs(s, actions) && Enabled(After(s, actions), a)
    ensures Runs(s, actions + [a]) && After(s, actions + [a]) == Step(After(s, actions), a)
    decreases |actions|
  {
    if actions == [] {
      assert [] + [a] == [a];
      assert [a][1..] == [];
      assert Runs(Step(s, a), []);
    } else {
      assert (actions + [a])[1..] == actions[1..] + [a];
      RunsAppend(Step(s, actions[0]), actions[1..], a);
    }
  }

  lemma ReachableStep(s: System, a: Action)
    requires Reachable(s) && Enabled(s, a)
    ensures Reachable(Step(s, a))
  {
    var actions :| Runs(INIT, actions) && After(INIT, actions) == s;
    RunsAppend(INIT, actions, a);
  }

  // ---------------------------------------------------------------- nothing happens on a missing subscription

  /**
   When the gate of the handlers is open, every subscription was requested and acknowledged with code 0 since the
   last lost session, exactly unless a lost session was reported after the stop flag had been set.
   */
  lemma OpenGateMeansSubscribed(s: System)
    requires Reachable(s) && SubscriptionsReady(s.r)
    ensures s.acked == ALL <==> !s.lossIgnored
    ensures s.lossIgnored ==> s.r.needStop
  {
    ReachableInv(s);
    EveryOneIsIn(NextJobChanged);
  }

  lemma PollFindsSubscribed(s: System)
    requires Inv(s) && Enabled(s, PublishPoll)
    ensures s.acked == ALL
  {
  }

  lemma AnswerFindsSubscribed(s: System, callback: Callback, code: int)
    requires Inv(s) && Enabled(s, Acknowledge(callback, code)) && PublishesStartNext(s, Acknowledge(callback, code))
    ensures Step(s, Acknowledge(callback, code)).acked == ALL
  {
    AcknowledgeKeepsAcked(s, callback, code);
    var t := Step(s, Acknowledge(callback, code));
    assert !s.r.needStop && SubscriptionsReady(t.r) && t.lossIgnored == s.lossIgnored;
  }

  lemma RefusalPublishesNothing(s: System)
    requires Enabled(s, ReportRefusal)
    ensures !PublishesStartNext(s, ReportRefusal)
  {
  }

  /** Whoever publishes a start-next request, all five subscriptions are acknowledged in the current session. */
  lemma StartNextOnlyWhenSubscribed(s: System, a: Action)
    requires Reachable(s) && Enabled(s, a) && PublishesStartNext(s, a)
    ensures Step(s, a).acked == ALL
  {
    ReachableInv(s);
    match a
    case PublishPoll => PollFindsSubscribed(s);
    case Acknowledge(callback, code) => AnswerFindsSubscribed(s, callback, code);
    case ReportRefusal => RefusalPublishesNothing(s);
  }

  /** The handlers read the stop flag before they take the lock, which is why the flag matters here. */
  lemma JobAdmittedOnlyWhenSubscribed(s: System)
    requires Reachable(s) && Enabled(s, PassGate) && AdmitsJob(s, PassGate)
    ensures s.acked == ALL <==> !s.lossIgnored
    ensures !s.r.needStop ==> s.acked == ALL
  {
    OpenGateMeansSubscribed(s);
  }

  // ---------------------------------------------------------------- recovery is never stuck

  /** An acknowledgement of this callback is possible now and will count, whatever its code. */
  ghost predicate AnswerCounts(s: System, callback: Callback, code: int) {
    && Enabled(s, Acknowledge(callback, code))
    && callback.sub in Step(s, Acknowledge(callback, code)).r.completed
  }

  /** `sub` has been requested in the current batch, is not answered yet, and its answer will count. */
  ghost predicate AnswerOnItsWay(s: System, sub: Subscription) {
    && Ticket(s.r.generation, sub) in s.outstanding
    && exists session: nat ::
         Renewal(s.r.generation, sub, session) in s.issued &&
         forall code :: AnswerCounts(s, Renewal(s.r.generation, sub, session), code)
  }

  predicate RequestAhead(s: System, sub: Subscription) {
    InBatch(s.lifecycle) && s.lifecycle.generation == s.r.generation && s.lifecycle.next <= Index(sub)
  }

  lemma RecoveryNeverStuck(s: System)
    requires Reachable(s) && s.r.ready && s.r.needed && !s.r.needStop
    ensures
      || (&& s.r.pending > 0
          && forall sub :: sub !in s.r.completed ==> AnswerOnItsWay(s, sub) || RequestAhead(s, sub))
      || (&& BatchConcluded(s.r)
          && s.requests[s.r.generation] + s.scheduled[s.r.generation] == 1
          && RetryAllowed(s.r, s.r.generation))
  {
    ReachableInv(s);
    ReachableAnswerable(s);
    if s.r.pending > 0 {
      forall sub | sub !in s.r.completed ensures AnswerOnItsWay(s, sub) || RequestAhead(s, sub) {
        assert AnswerDue(s.r.generation, s.lifecycle, s.outstanding, sub);
        if !RequestAhead(s, sub) {
          TicketIsAnswered(s, sub);
        }
      }
    }
  }

  lemma TicketIsAnswered(s: System, sub: Subscription)
    requires s.r.ready && !s.r.needStop && s.r.pending > 0 && sub !in s.r.completed
    requires Ticket(s.r.generation, sub) in s.outstanding && Answerable(s.issued, s.outstanding)
    ensures AnswerOnItsWay(s, sub)
  {
    assert HasCallback(s.issued, Ticket(s.r.generation, sub));
    var session: nat :| Renewal(s.r.generation, sub, session) in s.issued;
    forall code ensures AnswerCounts(s, Renewal(s.r.generation, sub, session), code) {
    }
  }

  /** The recovery state after a step; only five kinds of step change it. */
  ghost function NextRecovery(s: System, a: Action): Recovery
    requires Enabled(s, a)
  {
    match a
    case WorkerFinish => StartupSection(s.r, s.worker.good).0
    case ReportRefusal => CompleteSection(s.r, s.lifecycle.generation, Nth(s.lifecycle.next), QUEUE_FAILED).0
    case Acknowledge(Renewal(g, sub, _), code) => CompleteSection(s.r, g, sub, code).0
    case Resume(sessionPresent) => ResumeSection(s.r, sessionPresent).0
    case Retry(g) => RetrySection(s.r, g).0
    case SetStopFlag => s.r.(needStop := true)
    case RunStopSection => StopSection(s.r)
    case _ => s.r
  }

  lemma RecoveryActionMoves(s: System, a: Action)
    requires Enabled(s, a) && RecoveryAction(a)
    ensures Step(s, a).r == NextRecovery(s, a)
  {
  }

  lemma StopActionMoves(s: System, a: Action)
    requires Enabled(s, a) && StopAction(a)
    ensures Step(s, a).r == NextRecovery(s, a)
  {
  }

  lemma OthersMove(s: System, a: Action)
    requires Enabled(s, a) && !RecoveryAction(a) && !StopAction(a)
    ensures Step(s, a).r == NextRecovery(s, a)
  {
  }

  lemma StepRecovery(s: System, a: Action)
    requires Enabled(s, a)
    ensures Step(s, a).r == NextRecovery(s, a)
  {
    if RecoveryAction(a) {
      RecoveryActionMoves(s, a);
    } else if StopAction(a) {
      StopActionMoves(s, a);
    } else {
      OthersMove(s, a);
    }
  }

  lemma StepRaisesGeneration(s: System, a: Action)
    requires Enabled(s, a)
    ensures s.r.generation <= NextRecovery(s, a).generation
    ensures s.r.needStop ==> NextRecovery(s, a).needStop
    ensures RetryAllowed(s.r, s.r.generation) && NextRecovery(s, a).generation == s.r.generation &&
            !NextRecovery(s, a).needStop
            ==> RetryAllowed(NextRecovery(s, a), s.r.generation)
  {
  }

  lemma {:induction false} RunRaisesGeneration(s: System, actions: seq<Action>)
    requires Inv(s) && Runs(s, actions)
    ensures s.r.generation <= After(s, actions).r.generation
    ensures s.r.needStop ==> After(s, actions).r.needStop
    decreases |actions|
  {
    if actions != [] {
      StepKeeps(s, actions[0]);
      StepRecovery(s, actions[0]);
      StepRaisesGeneration(s, actions[0]);
      RunRaisesGeneration(Step(s, actions[0]), actions[1..]);
    }
  }

  /** A retry that would start a batch now still will after any run, if no section has moved the generation. */
  lemma {:induction false} RetryStaysAllowed(s: System, actions: seq<Action>)
    requires Inv(s) && Runs(s, actions) && RetryAllowed(s.r, s.r.generation)
    requires After(s, actions).r.generation == s.r.generation && !After(s, actions).r.needStop
    ensures RetryAllowed(After(s, actions).r, s.r.generation)
    decreases |actions|
  {
    if actions != [] {
      var t := Step(s, actions[0]);
      StepKeeps(s, actions[0]);
      StepRecovery(s, actions[0]);
      StepRaisesGeneration(s, actions[0]);
      RunRaisesGeneration(t, actions[1..]);
      RetryStaysAllowed(t, actions[1..]);
    }
  }

  // ---------------------------------------------------------------- what a step leads to

  /** The holder of the lifecycle lock is about to submit the first subscription of a new batch. */
  ghost predicate BatchOpens(s: System, t: System, worker: bool) {
    && t.lifecycle == Submitting(s.r.generation + 1, 0, worker) && t.r.generation == s.r.generation + 1
    && t.r.needed && t.r.pending == SUBSCRIPTION_COUNT && t.r.completed == {} && !t.r.failed
    && Enabled(t, SubmitNext(true))
    && Renewal(s.r.generation + 1, StartNextAccepted, t.session) in Step(t, SubmitNext(true)).issued
  }

  /** The holder of the lifecycle lock is about to publish a start-next request. */
  ghost predicate PollIsNext(t: System, worker: bool) {
    t.lifecycle == Polling(worker) && Enabled(t, PublishPoll) && PublishesStartNext(t, PublishPoll)
  }

  /**
   A resumed connection asks for pending jobs if the session and all subscriptions were kept, and otherwise opens a
   batch; before the client is ready it only notes a loss, and after the stop flag it does nothing.
   */
  lemma ResumeLeadsTo(s: System, sessionPresent: bool)
    requires Enabled(s, Resume(sessionPresent))
    ensures var t := Step(s, Resume(sessionPresent));
            if s.r.needStop then t.r == s.r && t.lifecycle.Free?
            else if !s.r.ready then t.r == s.r.(needed := s.r.needed || !sessionPresent) && t.lifecycle.Free?
            else if sessionPresent && !s.r.needed then PollIsNext(t, false) && t.r.ready && !t.r.needed
            else BatchOpens(s, t, false)
  {
  }

  /** The same for the end of the startup, which makes the client ready. */
  lemma StartupLeadsTo(s: System)
    requires Enabled(s, WorkerFinish)
    ensures var t := Step(s, WorkerFinish);
            if s.r.needStop then t.r == s.r && t.lifecycle.Free? && t.worker.Exited?
            else && t.r.ready && t.worker.HoldingLock?
                 && if s.worker.good && !s.r.needed then PollIsNext(t, true) && !t.r.needed else BatchOpens(s, t, true)
  {
  }

  /** A delayed retry opens a batch exactly if its failed batch is still the last one and nothing stopped meanwhile. */
  lemma RetryLeadsTo(s: System, failedGeneration: nat)
    requires Enabled(s, Retry(failedGeneration))
    ensures var t := Step(s, Retry(failedGeneration));
            if !s.r.needStop && s.r.ready && s.r.needed && s.r.pending == 0 && failedGeneration == s.r.generation
            then BatchOpens(s, t, false)
            else t.r == s.r && t.lifecycle.Free?
  {
  }

  /** The holder of the lifecycle lock loses its turn to nobody. */
  lemma TurnIsKept(s: System, a: Action)
    requires Enabled(s, a) && !s.lifecycle.Free? && !a.SubmitNext? && !a.ReportRefusal? && !a.PublishPoll?
    ensures Step(s, a).lifecycle == s.lifecycle
  {
  }

  /** A start-next request that is due stays due, over any run, until it is published. */
  lemma {:induction false} PollIsPublished(s: System, actions: seq<Action>)
    requires Enabled(s, PublishPoll) && Runs(s, actions) && PublishPoll !in actions
    ensures Enabled(After(s, actions), PublishPoll)
    decreases |actions|
  {
    if actions != [] {
      TurnIsKept(s, actions[0]);
      PollIsPublished(Step(s, actions[0]), actions[1..]);
    }
  }

  /** A request that is due stays due, for the same subscription and generation, until it is submitted. */
  lemma {:induction false} RequestIsSubmitted(s: System, actions: seq<Action>)
    requires s.lifecycle.Submitting? && s.lifecycle.next < SUBSCRIPTION_COUNT && Runs(s, actions)
    requires SubmitNext(true) !in actions && SubmitNext(false) !in actions
    ensures After(s, actions).lifecycle == s.lifecycle && Enabled(After(s, actions), SubmitNext(true))
    decreases |actions|
  {
    if actions != [] {
      TurnIsKept(s, actions[0]);
      RequestIsSubmitted(Step(s, actions[0]), actions[1..]);
    }
  }

  /**
   The answer to the last subscription that is missing decides: if all five codes are 0 it publishes and ends the
   recovery, otherwise it asks for a retry of this generation.
   */
  lemma LastAnswerDecides(s: System, sub: Subscription, session: nat, code: int)
    requires Reachable(s) && s.r.ready && !s.r.needStop && s.r.pending > 0
    requires Renewal(s.r.generation, sub, session) in s.issued && sub !in s.r.completed
    requires s.r.completed + {sub} == ALL
    ensures var a := Acknowledge(Renewal(s.r.generation, sub, session), code);
            var t := Step(s, a);
            if code == 0 && forall x :: x in s.codes ==> s.codes[x] == 0 then
              PublishesStartNext(s, a) && SubscriptionsReady(t.r)
            else
              !PublishesStartNext(s, a) && t.r.needed && t.requests == s.requests + multiset{s.r.generation}
  {
    ReachableInv(s);
    FullBatch(s.r.completed);
    FullBatch(s.r.completed + {sub});
  }

  /** A stop section closes the gate and outdates the callbacks and retries of every batch so far. */
  lemma StopSectionOutdates(s: System)
    requires Enabled(s, RunStopSection)
    ensures var t := Step(s, RunStopSection);
            && t.r.generation > s.r.generation && !t.r.ready && !t.r.needed && t.r.pending == 0
            && t.r.completed == {} && !t.r.failed && t.r.needStop == s.r.needStop
  {
  }

  // ---------------------------------------------------------------- one batch, one generation

  /** The holder of the lifecycle lock submits one batch during the whole run, up to its last step. */
  ghost predicate OneBatch(s: System, actions: seq<Action>)
    requires Runs(s, actions)
    decreases |actions|
  {
    actions != [] ==> InBatch(s.lifecycle) && OneBatch(Step(s, actions[0]), actions[1..])
  }

  lemma RequestsCarryGeneration(s: System, a: Action)
    requires Enabled(s, a)
    ensures s.issued <= NextIssued(s, a)
    ensures forall c :: c in NextIssued(s, a) - s.issued && c.Renewal? ==>
              s.lifecycle.Submitting? && c.generation == s.lifecycle.generation
  {
  }

  lemma StepMovesBatchOn(s: System, a: Action)
    requires Enabled(s, a) && InBatch(s.lifecycle)
    ensures NextRecovery(s, a).generation == s.r.generation
    ensures InBatch(Step(s, a).lifecycle) ==> Step(s, a).lifecycle.generation == s.lifecycle.generation
  {
  }

  /**
   However long the submission of a batch takes and whatever runs beside it, all its requests carry the generation
   under which it was opened, and that is still the current one when the last request has been made.
   */
  lemma {:induction false} BatchHasOneGeneration(s: System, actions: seq<Action>)
    requires Inv(s) && Runs(s, actions) && InBatch(s.lifecycle) && OneBatch(s, actions)
    ensures var t := After(s, actions);
            && t.r.generation == s.lifecycle.generation && s.issued <= t.issued
            && forall c :: c in t.issued - s.issued && c.Renewal? ==> c.generation == s.lifecycle.generation
    decreases |actions|
  {
    if actions != [] {
      var t := Step(s, actions[0]);
      StepIssued(s, actions[0]);
      RequestsCarryGeneration(s, actions[0]);
      StepMovesBatchOn(s, actions[0]);
      StepRecovery(s, actions[0]);
      StepKeeps(s, actions[0]);
      if |actions| > 1 {
        BatchHasOneGeneration(t, actions[1..]);
      } else {
        assert actions[1..] == [];
      }
    }
  }

  // ---------------------------------------------------------------- batches

  lemma BatchAccounts(s: System)
    requires Reachable(s)
    ensures s.r.pending + |s.r.completed| == SUBSCRIPTION_COUNT ||
            (s.r.pending == 0 && s.r.completed == {} && !s.r.failed)
    ensures s.r.pending <= SUBSCRIPTION_COUNT
  {
    ReachableInv(s);
    FullBatch(s.r.completed);
  }

  ghost function VerdictOf(s: System, a: Action): Verdict {
    match a
    case Acknowledge(Renewal(g, sub, _), code) => CompleteSection(s.r, g, sub, code).1
    case ReportRefusal =>
      if s.lifecycle.SubmitFailed? && s.lifecycle.next < SUBSCRIPTION_COUNT then
        CompleteSection(s.r, s.lifecycle.generation, Nth(s.lifecycle.next), QUEUE_FAILED).1
      else
        Dropped
    case _ => Dropped
  }

  ghost predicate Concludes(s: System, a: Action) {
    VerdictOf(s, a).Restored? || VerdictOf(s, a).BatchFailed?
  }

  lemma CompletionFollowsCodes(s: System, generation: nat, sub: Subscription, code: int)
    requires Accounting(s.r, s.codes)
    ensures var verdict, t := CompleteSection(s.r, generation, sub, code).1, Complete(s, generation, sub, code);
            verdict.Restored? || verdict.BatchFailed? ==>
              && t.codes.Keys == ALL
              && (verdict.Restored? <==> forall x :: x in t.codes ==> t.codes[x] == 0)
              && t.requests == (if verdict.Restored? then s.requests else s.requests + multiset{s.r.generation})
              && t.r.needed == !verdict.Restored?
  {
    CompleteKeepsAccounting(s, generation, sub, code);
  }

  /** A batch ends with all five codes known: it publishes if all are 0 and asks for one retry otherwise. */
  lemma ConclusionFollowsCodes(s: System, a: Action)
    requires Reachable(s) && Enabled(s, a) && Concludes(s, a)
    ensures var t := Step(s, a);
            && t.codes.Keys == ALL
            && (PublishesStartNext(s, a) <==> forall sub :: sub in t.codes ==> t.codes[sub] == 0)
            && t.requests == (if PublishesStartNext(s, a) then s.requests else s.requests + multiset{s.r.generation})
            && t.r.needed == !PublishesStartNext(s, a)
  {
    ReachableInv(s);
    if a.ReportRefusal? {
      CompletionFollowsCodes(s, s.lifecycle.generation, Nth(s.lifecycle.next), QUEUE_FAILED);
    } else {
      CompletionFollowsCodes(s, a.callback.generation, a.callback.sub, a.code);
    }
  }

  lemma ConclusionEndsGeneration(s: System, a: Action)
    requires Enabled(s, a)
    ensures Concludes(s, a) ==> s.r.pending > 0 && NextRecovery(s, a).pending == 0 &&
                                NextRecovery(s, a).generation == s.r.generation
    ensures s.r.pending == 0 && NextRecovery(s, a).generation == s.r.generation ==> NextRecovery(s, a).pending == 0
  {
  }

  lemma {:induction false} ConcludedStaysConcluded(s: System, actions: seq<Action>)
    requires Inv(s) && Runs(s, actions) && s.r.pending == 0 && After(s, actions).r.generation == s.r.generation
    ensures After(s, actions).r.pending == 0
    decreases |actions|
  {
    if actions != [] {
      var t := Step(s, actions[0]);
      StepKeeps(s, actions[0]);
      StepRecovery(s, actions[0]);
      StepRaisesGeneration(s, actions[0]);
      RunRaisesGeneration(t, actions[1..]);
      ConclusionEndsGeneration(s, actions[0]);
      ConcludedStaysConcluded(t, actions[1..]);
    }
  }

  /** Two conclusions in one run belong to different generations. */
  lemma BatchConcludesOnce(s: System, a: Action, between: seq<Action>, b: Action)
    requires Reachable(s) && Enabled(s, a) && Concludes(s, a)
    requires Runs(Step(s, a), between)
    requires Enabled(After(Step(s, a), between), b) && Concludes(After(Step(s, a), between), b)
    ensures s.r.generation < After(Step(s, a), between).r.generation
  {
    var t := Step(s, a);
    ReachableInv(s);
    StepKeeps(s, a);
    RunKeeps(t, between);
    RunRaisesGeneration(t, between);
    StepRecovery(s, a);
    ConclusionEndsGeneration(s, a);
    ConclusionEndsGeneration(After(t, between), b);
    if After(t, between).r.generation == s.r.generation {
      ConcludedStaysConcluded(t, between);
    }
  }

  // ---------------------------------------------------------------- shutdown

  /** A stop() section has run and the startup thread can do nothing more. */
  ghost predicate ShutDown(s: System) {
    s.stops.sections > 0 && (s.worker.Absent? || s.worker.Exited?)
  }

  /** The startup thread makes its next request without reading the stop flag again. */
  predicate CommittedToSubscribe(w: Worker) {
    w.Subscribing? || (w.QueueRefused? && w.k == 0)
  }

  /** The states from which no subscription can be requested any more. */
  ghost predicate Silent(s: System) {
    s.stops.sections > 0 && !CommittedToSubscribe(s.worker)
  }

  /** When a stop() call returns and no other one is still joining the startup thread, that thread is gone. */
  lemma StopReturnsAfterWorker(s: System, a: Action)
    requires Reachable(s) && Enabled(s, a) && StopReturns(s, a)
    ensures Step(s, a).stops.waiting == 0 ==> ShutDown(Step(s, a))
  {
    ReachableInv(s);
    StepKeeps(s, a);
  }

  lemma StepStaysSilent(s: System, a: Action)
    requires Inv(s) && Enabled(s, a) && Silent(s)
    ensures !Subscribes(a) && !PublishesStartNext(s, a) && Silent(Step(s, a))
  {
  }

  lemma {:induction false} RunStaysSilent(s: System, actions: seq<Action>, k: nat)
    requires Inv(s) && Silent(s) && Runs(s, actions) && k < |actions|
    ensures !Subscribes(actions[k])
    ensures Runs(s, actions[..k]) && !PublishesStartNext(After(s, actions[..k]), actions[k])
    decreases |actions|
  {
    StepStaysSilent(s, actions[0]);
    StepKeeps(s, actions[0]);
    if k > 0 {
      RunStaysSilent(Step(s, actions[0]), actions[1..], k - 1);
      assert actions[1..][..k - 1] == actions[..k][1..];
    }
  }

  /** After such a return no run requests a subscription or publishes a start-next request. */
  lemma NothingAfterStop(s: System, a: Action, later: seq<Action>, k: nat)
    requires Reachable(s) && Enabled(s, a) && StopReturns(s, a) && Step(s, a).stops.waiting == 0
    requires Runs(Step(s, a), later) && k < |later|
    ensures !Subscribes(later[k])
    ensures Runs(Step(s, a), later[..k]) && !PublishesStartNext(After(Step(s, a), later[..k]), later[k])
  {
    ReachableInv(s);
    StepKeeps(s, a);
    StopReturnsAfterWorker(s, a);
    RunStaysSilent(Step(s, a), later, k);
  }

  /** A client that calls stop() once, as the shipped one does, is silent when that call returns. */
  lemma NothingAfterSingleStop(s: System, a: Action, later: seq<Action>, k: nat)
    requires Reachable(s) && Enabled(s, a) && StopReturns(s, a) && s.stops.sections == 1
    requires Runs(Step(s, a), later) && k < |later|
    ensures !Subscribes(later[k])
    ensures Runs(Step(s, a), later[..k]) && !PublishesStartNext(After(Step(s, a), later[..k]), later[k])
  {
    ReachableInv(s);
    NothingAfterStop(s, a, later, k);
  }

  ghost predicate MaySubscribe(s: System) {
    exists actions, k: nat :: k < |actions| && Runs(s, actions) && Subscribes(actions[k])
  }

  /** Once a stop() section has run, a request can follow exactly if the startup thread is past its last check. */
  lemma SubscriptionAfterStopSection(s: System)
    requires Reachable(s) && s.stops.sections > 0
    ensures MaySubscribe(s) <==> CommittedToSubscribe(s.worker)
  {
    ReachableInv(s);
    if s.worker.Subscribing? {
      var actions := [WorkerSubscribe(true)];
      assert Runs(Step(s, actions[0]), actions[1..]);
      assert Runs(s, actions) && Subscribes(actions[0]);
    } else if CommittedToSubscribe(s.worker) {
      var actions := [WorkerReportRefusal, WorkerSubscribe(true)];
      var t := Step(s, actions[0]);
      assert actions[1..] == [WorkerSubscribe(true)];
      assert Runs(Step(t, actions[1]), actions[1..][1..]);
      assert Runs(t, actions[1..]);
      assert Runs(s, actions) && Subscribes(actions[1]);
    } else {
      forall actions, k: nat | k < |actions| && Runs(s, actions) ensures !Subscribes(actions[k]) {
        RunStaysSilent(s, actions, k);
      }
    }
  }

  // ---------------------------------------------------------------- the join ends

  predicate IsWorkerAction(a: Action) {
    a.WorkerCheck? || a.WorkerSubscribe? || a.WorkerReportRefusal? || a.WorkerAwait? || a.WorkerFinish?
  }

  /** An upper bound on the steps that the startup thread still makes after a stop() section. */
  function StepsLeft(w: Worker): int {
    match w
    case Absent => 0
    case Entering => 30
    case Connecting => 29
    case Subscribing(k, _) => 28 - 3 * k
    case QueueRefused(k) => 27 - 3 * k
    case Checking(k, _) => 29 - 3 * k
    case Awaiting(k, _) => 13 - k
    case Finishing(_) => 8
    case HoldingLock => 7
    case Exited => 0
  }

  /** The step that the startup thread is at, with no wait timing out. */
  function NextWorkerAction(w: Worker): Action {
    match w
    case Subscribing(_, _) => WorkerSubscribe(true)
    case QueueRefused(_) => WorkerReportRefusal
    case Awaiting(_, _) => WorkerAwait(false)
    case Finishing(_) => WorkerFinish
    case _ => WorkerCheck
  }

  /** After a stop() section the startup thread can always take its next step, and is a step nearer to its end. */
  lemma WorkerNotBlockedAfterStop(s: System)
    requires Reachable(s) && s.stops.sections > 0 && !s.worker.Absent? && !s.worker.Exited?
    ensures Enabled(s, NextWorkerAction(s.worker))
  {
    ReachableInv(s);
    if s.worker.Awaiting? {
      EveryOneIsIn(Nth(s.worker.k));
    }
  }

  /** Where the startup thread is after a step that leaves the stop flag set and the lifecycle lock free. */
  ghost function NextWorker(s: System, a: Action): Worker
    requires Enabled(s, a)
  {
    match a
    case WorkerCheck => Exited
    case WorkerSubscribe(queuedNow) =>
      if queuedNow then AfterSubscribe(s.worker.k + 1, s.worker.queued) else QueueRefused(s.worker.k)
    case WorkerReportRefusal => AfterSubscribe(s.worker.k + 1, false)
    case WorkerAwait(_) => Step(s, a).worker
    case WorkerFinish => Exited
    case _ => s.worker
  }

  lemma WorkerMoves(s: System, a: Action)
    requires s.r.needStop && s.stops.sections > 0 && Enabled(s, a) && IsWorkerAction(a)
    ensures Step(s, a).worker == NextWorker(s, a) && Step(s, a).stops.sections > 0
  {
  }

  lemma RecoveryKeepsWorker(s: System, a: Action)
    requires s.lifecycle.Free? && s.stops.sections > 0 && Enabled(s, a)
    requires RecoveryAction(a) || a.SubmitNext?
    ensures Step(s, a).worker == s.worker && Step(s, a).stops.sections > 0
  {
  }

  lemma OthersKeepWorker(s: System, a: Action)
    requires s.r.needStop && s.stops.sections > 0 && Enabled(s, a)
    requires !IsWorkerAction(a) && !RecoveryAction(a) && !a.SubmitNext?
    ensures Step(s, a).worker == s.worker && Step(s, a).stops.sections > 0
  {
  }

  lemma StepWorker(s: System, a: Action)
    requires s.r.needStop && s.lifecycle.Free? && s.stops.sections > 0 && Enabled(s, a)
    ensures Step(s, a).worker == NextWorker(s, a) && Step(s, a).stops.sections > 0
  {
    if IsWorkerAction(a) {
      WorkerMoves(s, a);
    } else if RecoveryAction(a) || a.SubmitNext? {
      RecoveryKeepsWorker(s, a);
    } else {
      OthersKeepWorker(s, a);
    }
  }

  lemma JoinGetsNearer(s: System, a: Action)
    requires Reachable(s) && s.stops.sections > 0 && Enabled(s, a)
    ensures Step(s, a).stops.sections > 0
    ensures if IsWorkerAction(a) then 0 <= StepsLeft(Step(s, a).worker) < StepsLeft(s.worker)
            else StepsLeft(Step(s, a).worker) == StepsLeft(s.worker)
  {
    ReachableInv(s);
    StepWorker(s, a);
  }

  function WorkerSteps(actions: seq<Action>): nat {
    if actions == [] then 0 else (if IsWorkerAction(actions[0]) then 1 else 0) + WorkerSteps(actions[1..])
  }

  /** However the other threads run, the startup thread makes at most thirty steps after a stop() section. */
  lemma {:induction false} JoinEnds(s: System, actions: seq<Action>)
    requires Reachable(s) && s.stops.sections > 0 && Runs(s, actions)
    ensures WorkerSteps(actions) + StepsLeft(After(s, actions).worker) <= StepsLeft(s.worker) <= 30
    ensures 0 <= StepsLeft(After(s, actions).worker)
    decreases |actions|
  {
    ReachableInv(s);
    if actions != [] {
      JoinGetsNearer(s, actions[0]);
      ReachableStep(s, actions[0]);
      JoinEnds(Step(s, actions[0]), actions[1..]);
    }
  }

  lemma OthersKeepResults(s: System, a: Action)
    requires Enabled(s, a) && !RecoveryAction(a) && !StopAction(a) && !a.WorkerReportRefusal?
    ensures Step(s, a).results == s.results
  {
  }

  lemma StepKeepsResult(s: System, a: Action, sub: Subscription)
    requires Enabled(s, a) && sub in s.results
    ensures sub in Step(s, a).results && Step(s, a).results[sub] == s.results[sub]
  {
    if RecoveryAction(a) {
      RecoveryKeepsResult(s, a, sub);
    } else if StopAction(a) {
      StopKeepsResult(s, a, sub);
    } else if !a.WorkerReportRefusal? {
      OthersKeepResults(s, a);
    }
  }

  lemma RecoveryKeepsResult(s: System, a: Action, sub: Subscription)
    requires Enabled(s, a) && sub in s.results && RecoveryAction(a)
    ensures sub in Step(s, a).results && Step(s, a).results[sub] == s.results[sub]
  {
  }

  lemma StopKeepsResult(s: System, a: Action, sub: Subscription)
    requires Enabled(s, a) && sub in s.results && StopAction(a)
    ensures sub in Step(s, a).results && Step(s, a).results[sub] == s.results[sub]
  {
    EveryOneIsIn(sub);
  }

  /** A resolved startup result never changes over any run, whoever completes it again. */
  lemma {:induction false} ResultsResolveOnce(s: System, actions: seq<Action>, sub: Subscription)
    requires Runs(s, actions) && sub in s.results
    ensures sub in After(s, actions).results && After(s, actions).results[sub] == s.results[sub]
    decreases |actions|
  {
    if actions != [] {
      StepKeepsResult(s, actions[0], sub);
      ResultsResolveOnce(Step(s, actions[0]), actions[1..], sub);
    }
  }

  lemma StopResolvesEveryResult(s: System)
    requires Reachable(s) && s.stops.sections > 0
    ensures forall sub: Subscription :: sub in s.results
  {
    ReachableInv(s);
    forall sub: Subscription ensures sub in s.results {
      EveryOneIsIn(sub);
    }
  }

  // ---------------------------------------------------------------- two runs that show the limits

  lemma Extend(s: System, a: Action) returns (t: System)
    requires Reachable(s) && Enabled(s, a)
    ensures Reachable(t) && t == Step(s, a)
  {
    ReachableStep(s, a);
    t := Step(s, a);
  }

  /** The startup thread has been launched and is about to make its first request. */
  lemma LaunchedWorker() returns (s: System)
    ensures Reachable(s)
    ensures s == INIT.(launch := Launched, joinable := true, worker := Subscribing(0, true))
  {
    assert Runs(INIT, []) && After(INIT, []) == INIT;
    s := Extend(INIT, RequestStart);
    s := Extend(s, LaunchThread);
    s := Extend(s, WorkerCheck);
    s := Extend(s, WorkerCheck);
  }

  lemma QueuedRequests() returns (s: System)
    ensures Reachable(s)
    ensures s == INIT.(launch := Launched, joinable := true, worker := Awaiting(0, true), issued := s.issued)
    ensures forall sub: Subscription :: Startup(sub, 0) in s.issued
  {
    s := LaunchedWorker();
    s := Extend(s, WorkerSubscribe(true));
    s := Extend(s, WorkerSubscribe(true));
    s := Extend(s, WorkerCheck);
    s := Extend(s, WorkerSubscribe(true));
    s := Extend(s, WorkerCheck);
    s := Extend(s, WorkerSubscribe(true));
    s := Extend(s, WorkerCheck);
    s := Extend(s, WorkerSubscribe(true));
    s := Extend(s, WorkerCheck);
    forall sub: Subscription ensures Startup(sub, 0) in s.issued {
      assert sub == Nth(Index(sub));
    }
  }

  /** One acknowledgement arrives and the startup thread picks it up. */
  lemma AcknowledgedRequest(s: System) returns (t: System)
    requires Reachable(s) && s.worker.Awaiting? && s.worker.good && s.worker.k < SUBSCRIPTION_COUNT
    requires s.session == 0 && Nth(s.worker.k) !in s.results && Startup(Nth(s.worker.k), 0) in s.issued
    ensures Reachable(t)
    ensures var sub := Nth(s.worker.k);
            t == s.(acked := s.acked + {sub}, results := s.results[sub := 0],
                    worker := if s.worker.k == 4 then Finishing(true) else Awaiting(s.worker.k + 1, true))
  {
    t := Extend(s, Acknowledge(Startup(Nth(s.worker.k), 0), 0));
    t := Extend(t, WorkerAwait(false));
  }

  /** A startup that succeeds: the gate is open, and a handler has just read the stop flag as clear. */
  lemma StartedUp() returns (s: System)
    ensures Reachable(s)
    ensures SubscriptionsReady(s.r) && !s.r.needStop && s.lifecycle.Free? && s.acked == ALL && s.gates == 1
  {
    s := QueuedRequests();
    s := AcknowledgedRequest(s);
    s := AcknowledgedRequest(s);
    s := AcknowledgedRequest(s);
    s := AcknowledgedRequest(s);
    s := AcknowledgedRequest(s);
    assert s.acked == ALL;
    s := Extend(s, WorkerFinish);
    s := Extend(s, PublishPoll);
    s := Extend(s, OpenGate);
  }

  /**
   A handler reads the stop flag, then stop() sets it, then a lost session is reported and ignored: the handler
   still finds the gate open and admits the job although no subscription exists in the new session.
   */
  lemma JobAdmittedWithoutSubscriptions() returns (s: System)
    ensures Reachable(s) && Enabled(s, PassGate) && AdmitsJob(s, PassGate) && s.acked == {}
  {
    s := StartedUp();
    s := Extend(s, SetStopFlag);
    s := Extend(s, Resume(false));
  }

  /**
   Two stop() calls overlap: the second finds the thread handle taken and returns while the startup thread is
   about to make its first request.
   */
  lemma OverlappingStopReturnsEarly() returns (s: System)
    ensures Reachable(s) && s.stops.returned == 1 && s.stops.waiting == 1
    ensures Enabled(s, WorkerSubscribe(true))
  {
    s := TwoStopSections();
    s := Extend(s, TakeThread);
    s := Extend(s, TakeThread);
  }

  lemma TwoStopSections() returns (s: System)
    ensures Reachable(s) && s.stops == Stops(0, 2, 2, 0, 0) && s.joinable && s.worker == Subscribing(0, true)
  {
    s := LaunchedWorker();
    s := Extend(s, SetStopFlag);
    s := Extend(s, SetStopFlag);
    s := Extend(s, RunStopSection);
    s := Extend(s, RunStopSection);
  }
}

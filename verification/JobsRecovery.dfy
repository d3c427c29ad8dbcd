/**
 The subscription recovery state of the Jobs feature.

 `Recovery` holds the fields that `connectionRecoveryLock` guards, together with the atomic stop flag.  Each
 function below is one critical section of source/jobs/JobsFeature.cpp; the class `JobsFeature` carries the
 same sections out on mutable fields.  How the sections interleave is the subject of module JobsSystem.
 */
module JobsRecovery {

  import opened Options

  datatype Subscription =
    StartNextAccepted | StartNextRejected | NextJobChanged | UpdateAccepted | UpdateRejected

  const SUBSCRIPTION_COUNT: nat := 5
  const QUEUE_FAILED := -1
  const STARTUP_CANCELLED := -2

  const ALL: set<Subscription> :=
    {StartNextAccepted, StartNextRejected, NextJobChanged, UpdateAccepted, UpdateRejected}

  /** The position of a subscription in the order in which a batch submits its requests. */
  function Index(sub: Subscription): (k: nat)
    ensures k < SUBSCRIPTION_COUNT && Nth(k) == sub
  {
    match sub
    case StartNextAccepted => 0
    case StartNextRejected => 1
    case NextJobChanged => 2
    case UpdateAccepted => 3
    case UpdateRejected => 4
  }

  function Nth(k: nat): Subscription
    requires k < SUBSCRIPTION_COUNT
  {
    if k == 0 then StartNextAccepted
    else if k == 1 then StartNextRejected
    else if k == 2 then NextJobChanged
    else if k == 3 then UpdateAccepted
    else UpdateRejected
  }

  datatype Recovery = Recovery(
    needStop: bool,
    ready: bool,
    generation: nat,
    pending: nat,
    failed: bool,
    completed: set<Subscription>,
    needed: bool)

  const FRESH := Recovery(false, false, 0, 0, false, {}, false)

  /** What a thread does after it leaves a section that may start a batch. */
  datatype Followup = Nothing | Poll | Resubscribe(generation: nat)

  /** How one completion was received. */
  datatype Verdict = Dropped | Counted | Restored | BatchFailed

  function NewBatch(r: Recovery): Recovery {
    r.(generation := r.generation + 1, pending := SUBSCRIPTION_COUNT, failed := false, completed := {})
  }

  function ResumeSection(r: Recovery, sessionPresent: bool): (Recovery, Followup) {
    if r.needStop then
      (r, Nothing)
    else
      var noted := if sessionPresent then r else r.(needed := true);
      if !noted.ready then
        (noted, Nothing)
      else if noted.needed then
        (NewBatch(noted), Resubscribe(noted.generation + 1))
      else
        (NewBatch(noted).(pending := 0), Poll)
  }

  function CompleteSection(r: Recovery, generation: nat, sub: Subscription, code: int): (Recovery, Verdict) {
    if r.needStop || !r.ready || generation != r.generation || r.pending == 0 || sub in r.completed then
      (r, Dropped)
    else
      var counted := r.(completed := r.completed + {sub}, failed := r.failed || code != 0, pending := r.pending - 1);
      if counted.pending != 0 then
        (counted, Counted)
      else if counted.failed then
        (counted, BatchFailed)
      else
        (counted.(needed := false), Restored)
  }

  /** The test that both the request for a retry and the retry itself make under the lock. */
  predicate RetryAllowed(r: Recovery, failedGeneration: nat) {
    !r.needStop && r.ready && r.needed && failedGeneration == r.generation && r.pending == 0
  }

  function RetrySection(r: Recovery, failedGeneration: nat): (Recovery, Followup) {
    if RetryAllowed(r, failedGeneration) then
      (NewBatch(r), Resubscribe(r.generation + 1))
    else
      (r, Nothing)
  }

  /** The section in which the startup worker publishes that the client is ready. */
  function StartupSection(r: Recovery, subscriptionsReady: bool): (Recovery, Followup) {
    if r.needStop then
      (r, Nothing)
    else
      var ready := r.(ready := true, needed := r.needed || !subscriptionsReady);
      if ready.needed then (NewBatch(ready), Resubscribe(r.generation + 1)) else (ready, Poll)
  }

  function StopSection(r: Recovery): Recovery {
    r.(ready := false, generation := r.generation + 1, pending := 0, failed := false, completed := {},
       needed := false)
  }

  predicate SubscriptionsReady(r: Recovery) {
    r.ready && !r.needed
  }

  // ---------------------------------------------------------------- the completion mask

  function Bit(sub: Subscription): bv8 {
    match sub
    case StartNextAccepted => 1
    case StartNextRejected => 2
    case NextJobChanged => 4
    case UpdateAccepted => 8
    case UpdateRejected => 16
  }

  function Members(mask: bv8): set<Subscription> {
    set sub: Subscription | mask & Bit(sub) != 0
  }

  lemma MaskInsert(mask: bv8, sub: Subscription)
    ensures Members(mask | Bit(sub)) == Members(mask) + {sub}
  {
    forall other: Subscription
      ensures (mask | Bit(sub)) & Bit(other) != 0 <==> mask & Bit(other) != 0 || other == sub
    {
      match other
      case StartNextAccepted =>
      case StartNextRejected =>
      case NextJobChanged =>
      case UpdateAccepted =>
      case UpdateRejected =>
    }
  }

  lemma MaskEmpty()
    ensures Members(0) == {}
  {
    forall sub: Subscription
      ensures 0 & Bit(sub) == 0
    {
      assert Bit(sub) == 1 || Bit(sub) == 2 || Bit(sub) == 4 || Bit(sub) == 8 || Bit(sub) == 16;
    }
  }

  // ---------------------------------------------------------------- the mutable feature

  /** A startup acknowledgement that the first of several writers resolves. */
  class StartupSubscriptionResult {
    var result: Option<int>

    constructor ()
      ensures result == None
    {
      result := None;
    }

    method Complete(ioError: int)
      modifies this
      ensures result == if old(result).Some? then old(result) else Some(ioError)
    {
      if result.None? {
        result := Some(ioError);
      }
    }
  }

  class JobsFeature {
    var needStop: bool
    var jobsClientReady: bool
    var connectionRecoveryGeneration: nat
    var pendingRecoverySubscriptions: nat
    var connectionRecoveryFailed: bool
    var completedRecoverySubscriptionMask: bv8
    var subscriptionsNeedRecovery: bool

    ghost function View(): Recovery
      reads this
    {
      Recovery(needStop, jobsClientReady, connectionRecoveryGeneration, pendingRecoverySubscriptions,
               connectionRecoveryFailed, Members(completedRecoverySubscriptionMask), subscriptionsNeedRecovery)
    }

    constructor ()
      ensures View() == FRESH
    {
      needStop, jobsClientReady, connectionRecoveryGeneration := false, false, 0;
      pendingRecoverySubscriptions, connectionRecoveryFailed := 0, false;
      completedRecoverySubscriptionMask, subscriptionsNeedRecovery := 0, false;
      MaskEmpty();
    }

    method ClearCompleted()
      modifies this`completedRecoverySubscriptionMask
      ensures Members(completedRecoverySubscriptionMask) == {}
    {
      completedRecoverySubscriptionMask := 0;
      MaskEmpty();
    }

    /** Sets the bit of a subscription; reports whether it was clear before. */
    method MarkCompleted(sub: Subscription) returns (first: bool)
      modifies this`completedRecoverySubscriptionMask
      ensures first == (sub !in old(Members(completedRecoverySubscriptionMask)))
      ensures Members(completedRecoverySubscriptionMask) == old(Members(completedRecoverySubscriptionMask)) + {sub}
    {
      if completedRecoverySubscriptionMask & Bit(sub) != 0 {
        return false;
      }
      MaskInsert(completedRecoverySubscriptionMask, sub);
      completedRecoverySubscriptionMask := completedRecoverySubscriptionMask | Bit(sub);
      return true;
    }

    method OnConnectionResumed(sessionPresent: bool) returns (next: Followup)
      modifies this
      ensures (View(), next) == ResumeSection(old(View()), sessionPresent)
      ensures needStop == old(needStop) && jobsClientReady == old(jobsClientReady)
      ensures next.Poll? <==> !needStop && jobsClientReady && sessionPresent && !old(subscriptionsNeedRecovery)
      ensures next.Resubscribe? <==>
              !needStop && jobsClientReady && (!sessionPresent || old(subscriptionsNeedRecovery))
      ensures next.Resubscribe? ==> next.generation == connectionRecoveryGeneration
      ensures connectionRecoveryGeneration == old(connectionRecoveryGeneration) + if next.Nothing? then 0 else 1
      ensures subscriptionsNeedRecovery == (old(subscriptionsNeedRecovery) || (!needStop && !sessionPresent))
      ensures pendingRecoverySubscriptions ==
              match next { case Nothing => old(pendingRecoverySubscriptions) case Poll => 0 case Resubscribe(_) => 5 }
    {
      if needStop {
        return Nothing;
      }
      if !sessionPresent {
        subscriptionsNeedRecovery := true;
      }
      if !jobsClientReady {
        return Nothing;
      }
      connectionRecoveryGeneration := connectionRecoveryGeneration + 1;
      pendingRecoverySubscriptions := 0;
      connectionRecoveryFailed := false;
      ClearCompleted();
      if subscriptionsNeedRecovery {
        pendingRecoverySubscriptions := SUBSCRIPTION_COUNT;
        return Resubscribe(connectionRecoveryGeneration);
      }
      return Poll;
    }

    method CompleteRecoverySubscription(generation: nat, sub: Subscription, ioError: int) returns (verdict: Verdict)
      modifies this
      ensures (View(), verdict) == CompleteSection(old(View()), generation, sub, ioError)
      ensures verdict.Dropped? <==>
              needStop || !jobsClientReady || generation != connectionRecoveryGeneration ||
              old(pendingRecoverySubscriptions) == 0 || sub in old(View()).completed
      ensures verdict.Dropped? ==> View() == old(View())
      ensures !verdict.Dropped? ==>
                && pendingRecoverySubscriptions == old(pendingRecoverySubscriptions) - 1
                && View().completed == old(View()).completed + {sub}
                && (connectionRecoveryFailed <==> old(connectionRecoveryFailed) || ioError != 0)
      ensures verdict.Restored? <==>
              !verdict.Dropped? && pendingRecoverySubscriptions == 0 && !connectionRecoveryFailed
      ensures verdict.BatchFailed? <==>
              !verdict.Dropped? && pendingRecoverySubscriptions == 0 && connectionRecoveryFailed
      ensures subscriptionsNeedRecovery <==> old(subscriptionsNeedRecovery) && !verdict.Restored?
    {
      if needStop || !jobsClientReady || generation != connectionRecoveryGeneration ||
         pendingRecoverySubscriptions == 0
      {
        return Dropped;
      }
      var first := MarkCompleted(sub);
      if !first {
        assert View().completed == old(View()).completed;
        return Dropped;
      }
      if ioError == QUEUE_FAILED {
        connectionRecoveryFailed := true;
      } else if ioError != 0 {
        connectionRecoveryFailed := true;
      }
      pendingRecoverySubscriptions := pendingRecoverySubscriptions - 1;
      if pendingRecoverySubscriptions == 0 {
        if !connectionRecoveryFailed {
          subscriptionsNeedRecovery := false;
          return Restored;
        }
        return BatchFailed;
      }
      return Counted;
    }

    method RequestSubscriptionRecoveryRetry(failedGeneration: nat) returns (schedule: bool)
      ensures schedule == RetryAllowed(View(), failedGeneration)
      ensures schedule <==>
              !needStop && jobsClientReady && subscriptionsNeedRecovery && pendingRecoverySubscriptions == 0 &&
              failedGeneration == connectionRecoveryGeneration
    {
      if needStop || !jobsClientReady || !subscriptionsNeedRecovery ||
         failedGeneration != connectionRecoveryGeneration || pendingRecoverySubscriptions != 0
      {
        return false;
      }
      return true;
    }

    method RetrySubscriptionRecovery(failedGeneration: nat) returns (next: Followup)
      modifies this
      ensures (View(), next) == RetrySection(old(View()), failedGeneration)
      ensures next.Resubscribe? <==>
              !needStop && jobsClientReady && subscriptionsNeedRecovery && old(pendingRecoverySubscriptions) == 0 &&
              failedGeneration == old(connectionRecoveryGeneration)
      ensures next.Resubscribe? ==>
                next.generation == connectionRecoveryGeneration == failedGeneration + 1 &&
                pendingRecoverySubscriptions == 5
      ensures !next.Resubscribe? ==> next.Nothing? && View() == old(View())
    {
      if needStop || !jobsClientReady || !subscriptionsNeedRecovery ||
         failedGeneration != connectionRecoveryGeneration || pendingRecoverySubscriptions != 0
      {
        return Nothing;
      }
      connectionRecoveryGeneration := connectionRecoveryGeneration + 1;
      pendingRecoverySubscriptions := SUBSCRIPTION_COUNT;
      connectionRecoveryFailed := false;
      ClearCompleted();
      return Resubscribe(connectionRecoveryGeneration);
    }

    method FinishStartup(startupSubscriptionsReady: bool) returns (next: Followup)
      modifies this
      ensures (View(), next) == StartupSection(old(View()), startupSubscriptionsReady)
      ensures next.Nothing? <==> needStop
      ensures next.Nothing? ==> View() == old(View())
      ensures !needStop ==> jobsClientReady
      ensures !needStop ==> (next.Poll? <==> startupSubscriptionsReady && !old(subscriptionsNeedRecovery))
      ensures next.Poll? ==> connectionRecoveryGeneration == old(connectionRecoveryGeneration)
      ensures next.Resubscribe? ==>
                next.generation == connectionRecoveryGeneration == old(connectionRecoveryGeneration) + 1 &&
                pendingRecoverySubscriptions == 5 && subscriptionsNeedRecovery
    {
      if needStop {
        return Nothing;
      }
      jobsClientReady := true;
      if !startupSubscriptionsReady {
        subscriptionsNeedRecovery := true;
      }
      if subscriptionsNeedRecovery {
        connectionRecoveryGeneration := connectionRecoveryGeneration + 1;
        pendingRecoverySubscriptions := SUBSCRIPTION_COUNT;
        connectionRecoveryFailed := false;
        ClearCompleted();
        return Resubscribe(connectionRecoveryGeneration);
      }
      return Poll;
    }

    method RequestStop()
      modifies this
      ensures View() == old(View()).(needStop := true)
    {
      needStop := true;
    }

    method StopRecovery()
      modifies this
      ensures View() == StopSection(old(View()))
      ensures !jobsClientReady && !subscriptionsNeedRecovery && needStop == old(needStop)
      ensures pendingRecoverySubscriptions == 0 && !connectionRecoveryFailed && View().completed == {}
      ensures connectionRecoveryGeneration > old(connectionRecoveryGeneration)
    {
      jobsClientReady := false;
      connectionRecoveryGeneration := connectionRecoveryGeneration + 1;
      pendingRecoverySubscriptions := 0;
      connectionRecoveryFailed := false;
      ClearCompleted();
      subscriptionsNeedRecovery := false;
    }

    method JobsSubscriptionsReady() returns (open: bool)
      ensures open == SubscriptionsReady(View())
      ensures open <==> jobsClientReady && !subscriptionsNeedRecovery
    {
      open := jobsClientReady && !subscriptionsNeedRecovery;
    }
  }
}

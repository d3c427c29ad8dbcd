/**
 The secure tunneling feature: generation windows for tunnel notifications, recovery of the notification
 subscription, and the list of open tunnels.

 `Feature` holds what `mConnectionRecoveryLock` guards in source/tunneling/SecureTunnelingFeature.cpp, the
 functions are its critical sections, and the class `SecureTunnelingFeature` runs them on mutable fields.
 Tunnels are named by numbers.
 */
module TunnelFeature {
  import opened Options

  datatype Feature = Feature(
    started: bool,
    needsRecovery: bool,
    generation: nat,           // mConnectionRecoveryGeneration
    oldestValid: nat,          // mOldestValidSubscriptionGeneration
    lifecycleGeneration: nat,  // mFeatureLifecycleGeneration
    client: bool,              // iotSecureTunnelingClient is set
    notify: bool,              // mSubscribeNotification
    contexts: seq<nat>)

  function StartSection(f: Feature): Feature {
    f.(started := true, needsRecovery := false, generation := f.generation + 1, oldestValid := f.generation + 1)
  }

  function StopSection(f: Feature): Feature {
    f.(started := false, needsRecovery := false, generation := f.generation + 1, oldestValid := f.generation + 1,
       lifecycleGeneration := f.lifecycleGeneration + 1)
  }

  /** The second result is the generation of the recovery that the caller has to issue. */
  function ResumeSection(f: Feature, sessionPresent: bool): (Feature, Option<nat>) {
    if !f.started || !f.notify || !f.client then
      (f, None)
    else
      var noted := f.(needsRecovery := f.needsRecovery || !sessionPresent);
      if !noted.needsRecovery then
        (noted, None)
      else
        var next := f.generation + 1;
        (noted.(generation := next, oldestValid := if sessionPresent then f.oldestValid else next), Some(next))
  }

  /** A subscription that was refused, or an initial one that failed, asks for a recovery while it is current. */
  function SubscribeFailedSection(f: Feature, generation: nat): (Feature, bool) {
    if f.started && generation == f.generation then (f.(needsRecovery := true), true) else (f, false)
  }

  function RecoveryAckSection(f: Feature, generation: nat, success: bool): (Feature, bool) {
    if !f.started || generation != f.generation || !f.needsRecovery then
      (f, false)
    else if success then
      (f.(needsRecovery := false), false)
    else
      (f, true)
  }

  predicate RetryAllowed(f: Feature, failedGeneration: nat) {
    f.started && f.notify && f.client && f.needsRecovery && failedGeneration == f.generation
  }

  function RetrySection(f: Feature, failedGeneration: nat): (Feature, Option<nat>) {
    if RetryAllowed(f, failedGeneration) then
      (f.(generation := f.generation + 1), Some(f.generation + 1))
    else
      (f, None)
  }

  predicate InWindow(f: Feature, subscriptionGeneration: nat) {
    f.started && f.oldestValid <= subscriptionGeneration <= f.generation
  }

  predicate StillCurrent(f: Feature, lifecycleGeneration: nat) {
    f.started && lifecycleGeneration == f.lifecycleGeneration
  }

  function PushSection(f: Feature, lifecycleGeneration: nat, context: nat): (Feature, bool) {
    if StillCurrent(f, lifecycleGeneration) then (f.(contexts := f.contexts + [context]), true) else (f, false)
  }

  /** Drops the first occurrence of a tunnel. */
  function Without(contexts: seq<nat>, context: nat): (rest: seq<nat>)
    ensures forall c :: c in rest ==> c in contexts
    ensures forall c :: c in contexts && c != context ==> c in rest
  {
    if contexts == [] then []
    else if contexts[0] == context then contexts[1..]
    else [contexts[0]] + Without(contexts[1..], context)
  }

  lemma {:induction false} WithoutAt(contexts: seq<nat>, i: nat)
    requires i < |contexts| && contexts[i] !in contexts[..i]
    ensures Without(contexts, contexts[i]) == contexts[..i] + contexts[i + 1..]
  {
    if i > 0 {
      var rest := contexts[1..];
      assert rest[..i - 1] == contexts[..i][1..];
      assert contexts[0] == contexts[..i][0];
      WithoutAt(rest, i - 1);
      assert contexts[..i] + contexts[i + 1..] == [contexts[0]] + (rest[..i - 1] + rest[i..]);
    }
  }

  lemma {:induction false} WithoutAbsent(contexts: seq<nat>, context: nat)
    requires context !in contexts
    ensures Without(contexts, context) == contexts
  {
    if contexts != [] {
      WithoutAbsent(contexts[1..], context);
    }
  }

  class SecureTunnelingFeature {
    var mStarted: bool
    var mSubscriptionNeedsRecovery: bool
    var mConnectionRecoveryGeneration: nat
    var mOldestValidSubscriptionGeneration: nat
    var mFeatureLifecycleGeneration: nat
    var iotSecureTunnelingClient: bool
    const mSubscribeNotification: bool
    var mContexts: seq<nat>

    ghost function View(): Feature
      reads this
    {
      Feature(mStarted, mSubscriptionNeedsRecovery, mConnectionRecoveryGeneration, mOldestValidSubscriptionGeneration,
              mFeatureLifecycleGeneration, iotSecureTunnelingClient, mSubscribeNotification, mContexts)
    }

    constructor (subscribeNotification: bool, configured: seq<nat>)
      ensures View() == Feature(false, false, 0, 0, 0, false, subscribeNotification, configured)
    {
      mStarted, mSubscriptionNeedsRecovery, iotSecureTunnelingClient := false, false, false;
      mConnectionRecoveryGeneration, mOldestValidSubscriptionGeneration, mFeatureLifecycleGeneration := 0, 0, 0;
      mSubscribeNotification := subscribeNotification;
      mContexts := configured;
    }

    method Start()
      modifies this
      ensures View() == StartSection(old(View()))
      ensures View().started && !View().needsRecovery && View().contexts == old(View()).contexts
      ensures InWindow(View(), View().generation)
      ensures forall g: nat :: g <= old(View()).generation ==> !InWindow(View(), g)
    {
      mStarted := true;
      mSubscriptionNeedsRecovery := false;
      mConnectionRecoveryGeneration := mConnectionRecoveryGeneration + 1;
      mOldestValidSubscriptionGeneration := mConnectionRecoveryGeneration;
    }

    /** The tunnels that stop() goes on to stop are returned. */
    method Stop() returns (contexts: seq<nat>)
      modifies this
      ensures View() == StopSection(old(View())) && contexts == old(View()).contexts
      ensures View().contexts == contexts && !View().needsRecovery
      ensures View().lifecycleGeneration > old(View()).lifecycleGeneration
      ensures forall g: nat :: !InWindow(View(), g)
      ensures forall l: nat :: !StillCurrent(View(), l)
    {
      mStarted := false;
      mSubscriptionNeedsRecovery := false;
      mConnectionRecoveryGeneration := mConnectionRecoveryGeneration + 1;
      mOldestValidSubscriptionGeneration := mConnectionRecoveryGeneration;
      mFeatureLifecycleGeneration := mFeatureLifecycleGeneration + 1;
      contexts := mContexts;
    }

    method OnConnectionResumed(sessionPresent: bool) returns (recovery: Option<nat>)
      modifies this
      ensures (View(), recovery) == ResumeSection(old(View()), sessionPresent)
      ensures recovery.Some? <==> mStarted && mSubscribeNotification && iotSecureTunnelingClient &&
                                  (!sessionPresent || old(mSubscriptionNeedsRecovery))
      ensures recovery.None? ==> View() == old(View())
      ensures sessionPresent ==> mOldestValidSubscriptionGeneration == old(mOldestValidSubscriptionGeneration)
      ensures recovery.Some? ==>
                recovery.value == View().generation == old(View()).generation + 1 && View().needsRecovery
      ensures recovery.Some? && !sessionPresent ==>
                forall g: nat :: g <= old(View()).generation ==> !InWindow(View(), g)
    {
      if !mStarted {
        return None;
      }
      if !mSubscribeNotification {
        return None;
      }
      if !iotSecureTunnelingClient {
        return None;
      }
      if !sessionPresent {
        mSubscriptionNeedsRecovery := true;
      }
      if !mSubscriptionNeedsRecovery {
        return None;
      }
      mConnectionRecoveryGeneration := mConnectionRecoveryGeneration + 1;
      if !sessionPresent {
        mOldestValidSubscriptionGeneration := mConnectionRecoveryGeneration;
      }
      return Some(mConnectionRecoveryGeneration);
    }

    method AdoptClient() returns (subscriptionGeneration: nat)
      modifies this
      ensures View() == old(View()).(client := true) && subscriptionGeneration == View().generation
    {
      iotSecureTunnelingClient := true;
      subscriptionGeneration := mConnectionRecoveryGeneration;
    }

    method OnSubscribeFailed(recoveryGeneration: nat) returns (retryRecovery: bool)
      modifies this
      ensures (View(), retryRecovery) == SubscribeFailedSection(old(View()), recoveryGeneration)
      ensures retryRecovery <==> mStarted && recoveryGeneration == mConnectionRecoveryGeneration
      ensures retryRecovery ==> View().needsRecovery && recoveryGeneration == View().generation
      ensures !retryRecovery ==> View() == old(View())
    {
      retryRecovery := false;
      if mStarted && recoveryGeneration == mConnectionRecoveryGeneration {
        mSubscriptionNeedsRecovery := true;
        retryRecovery := true;
      }
    }

    method OnRecoveryComplete(ioErr: int, recoveryGeneration: nat) returns (retryRecovery: bool)
      modifies this
      ensures (View(), retryRecovery) == RecoveryAckSection(old(View()), recoveryGeneration, ioErr == 0)
      ensures var counts := mStarted && recoveryGeneration == mConnectionRecoveryGeneration &&
                            old(mSubscriptionNeedsRecovery);
              && (retryRecovery <==> counts && ioErr != 0)
              && (mSubscriptionNeedsRecovery <==> old(mSubscriptionNeedsRecovery) && !(counts && ioErr == 0))
      ensures retryRecovery ==> ioErr != 0 && View().needsRecovery && recoveryGeneration == View().generation
      ensures View() != old(View()) ==> ioErr == 0 && old(View()).needsRecovery && !View().needsRecovery
    {
      if !mStarted || recoveryGeneration != mConnectionRecoveryGeneration || !mSubscriptionNeedsRecovery {
        return false;
      }
      if ioErr == 0 {
        mSubscriptionNeedsRecovery := false;
        return false;
      }
      return true;
    }

    method RetrySubscriptionRecovery(failedGeneration: nat) returns (recovery: Option<nat>)
      modifies this
      ensures (View(), recovery) == RetrySection(old(View()), failedGeneration)
      ensures recovery.Some? <==>
              mStarted && mSubscribeNotification && iotSecureTunnelingClient && mSubscriptionNeedsRecovery &&
              failedGeneration == old(mConnectionRecoveryGeneration)
      ensures recovery.None? ==> View() == old(View())
      ensures recovery.Some? ==> recovery.value == failedGeneration + 1 == View().generation &&
                                 View().oldestValid == old(View()).oldestValid
    {
      if !mStarted || !mSubscribeNotification || !iotSecureTunnelingClient || !mSubscriptionNeedsRecovery ||
         failedGeneration != mConnectionRecoveryGeneration
      {
        return None;
      }
      mConnectionRecoveryGeneration := mConnectionRecoveryGeneration + 1;
      return Some(mConnectionRecoveryGeneration);
    }

    method AcceptNotification(subscriptionGeneration: nat) returns (lifecycleGeneration: Option<nat>)
      ensures lifecycleGeneration ==
              if InWindow(View(), subscriptionGeneration) then Some(View().lifecycleGeneration) else None
    {
      if !mStarted || subscriptionGeneration < mOldestValidSubscriptionGeneration ||
         subscriptionGeneration > mConnectionRecoveryGeneration
      {
        return None;
      }
      return Some(mFeatureLifecycleGeneration);
    }

    method PushContext(lifecycleGeneration: nat, context: nat) returns (pushed: bool)
      modifies this
      ensures (View(), pushed) == PushSection(old(View()), lifecycleGeneration, context)
      ensures pushed <==> mStarted && lifecycleGeneration == mFeatureLifecycleGeneration
      ensures pushed ==> mContexts == old(mContexts) + [context]
      ensures pushed ==> context in View().contexts && StillCurrent(View(), lifecycleGeneration)
      ensures !pushed ==> View() == old(View())
    {
      if !mStarted || lifecycleGeneration != mFeatureLifecycleGeneration {
        return false;
      }
      mContexts := mContexts + [context];
      return true;
    }

    /** The search and erase that a failed connect and OnTunnelStopped share. */
    method EraseContext(context: nat)
      modifies this
      ensures View() == old(View()).(contexts := Without(old(View()).contexts, context))
    {
      var i := 0;
      while i < |mContexts| && mContexts[i] != context
        invariant 0 <= i <= |mContexts| && mContexts == old(mContexts)
        invariant context !in mContexts[..i]
      {
        assert mContexts[..i + 1] == mContexts[..i] + [mContexts[i]];
        i := i + 1;
      }
      if i < |mContexts| {
        WithoutAt(mContexts, i);
        mContexts := mContexts[..i] + mContexts[i + 1..];
      } else {
        assert mContexts[..i] == mContexts;
        WithoutAbsent(mContexts, context);
      }
    }
  }
}

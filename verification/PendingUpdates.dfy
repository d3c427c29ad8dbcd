/**
 The map of promises that ties a response to a job execution update to the thread that waits for it
 (source/jobs/JobsFeature.cpp, publishUpdateJobExecutionStatusWithRetry and the two response handlers).
 Times are milliseconds.
 */
module PendingUpdates {
  import opened Options

  type Token = string

  datatype Response = Accepted | RetryableError | NonRetryableError

  /** An EphemeralPromise: the time it was made and the response, once there is one. */
  datatype Promise = Promise(created: nat, value: Option<Response>)

  const TTL: nat := 15 * 1000
  const WAIT: nat := 10 * 1000

  predicate IsExpired(p: Promise, now: nat) {
    now >= p.created + TTL
  }

  function Live(promises: map<Token, Promise>, now: nat): map<Token, Promise> {
    map token | token in promises && !IsExpired(promises[token], now) :: promises[token]
  }

  /** How a handler ends: the standard library throws on an unknown key or on a promise that has its value. */
  datatype Handled = Delivered | NotFound | Throws

  function AcceptedSection(promises: map<Token, Promise>, token: Token): (map<Token, Promise>, Handled) {
    if token !in promises then (promises, NotFound)
    else if promises[token].value.Some? then (promises, Throws)
    else (promises[token := promises[token].(value := Some(Accepted))], Delivered)
  }

  /** Unlike the other handler, this one goes on after it has logged that the token is unknown. */
  function RejectedSection(promises: map<Token, Promise>, token: Token, throttled: bool)
    : (map<Token, Promise>, Handled)
  {
    if token !in promises || promises[token].value.Some? then (promises, Throws)
    else
      var response := if throttled then RetryableError else NonRetryableError;
      (promises[token := promises[token].(value := Some(response))], Delivered)
  }

  class UpdatePromises {
    var promises: map<Token, Promise>

    constructor ()
      ensures promises == map[]
    {
      promises := map[];
    }

    method SweepExpired(now: nat)
      modifies this
      ensures promises == Live(old(promises), now)
      ensures forall token :: token in promises <==>
                token in old(promises) && now < old(promises)[token].created + 15 * 1000
      ensures forall token :: token in promises ==> promises[token] == old(promises)[token]
    {
      var unseen := promises.Keys;
      while unseen != {}
        invariant unseen <= promises.Keys <= old(promises).Keys
        invariant forall token :: token in promises ==> promises[token] == old(promises)[token]
        invariant forall token :: token in old(promises) ==>
                    (token in promises <==> token in unseen || !IsExpired(old(promises)[token], now))
        decreases unseen
      {
        var token :| token in unseen;
        unseen := unseen - {token};
        if IsExpired(promises[token], now) {
          promises := promises - {token};
        }
      }
    }

    /** std::map::insert leaves an entry alone that is already there. */
    method Insert(token: Token, now: nat)
      modifies this
      ensures promises == if token in old(promises) then old(promises)
                          else old(promises)[token := Promise(now, None)]
    {
      if token !in promises {
        promises := promises[token := Promise(now, None)];
      }
    }

    method OnAccepted(token: Token) returns (handled: Handled)
      modifies this
      ensures (promises, handled) == AcceptedSection(old(promises), token)
    {
      if token !in promises {
        return NotFound;
      }
      if promises[token].value.Some? {
        return Throws;
      }
      promises := promises[token := promises[token].(value := Some(Accepted))];
      return Delivered;
    }

    method OnRejected(token: Token, throttledOrInternal: bool) returns (handled: Handled)
      modifies this
      ensures (promises, handled) == RejectedSection(old(promises), token, throttledOrInternal)
    {
      var responseCode := NonRetryableError;
      if throttledOrInternal {
        responseCode := RetryableError;
      }
      if token !in promises {
        return Throws;
      }
      if promises[token].value.Some? {
        return Throws;
      }
      promises := promises[token := promises[token].(value := Some(responseCode))];
      return Delivered;
    }

    method Erase(token: Token)
      modifies this
      ensures promises == old(promises) - {token}
    {
      promises := promises - {token};
    }
  }

  // ---------------------------------------------------------------- all update threads together

  /** Where an update thread is in one attempt. */
  datatype Attempt =
    | Resting
    | Swept
    | Publishing(token: Token, since: nat)
    | Failed                                            // the lookup after the publish found no entry
    | Waiting(token: Token, created: nat, since: nat)
    | Leaving(token: Token, response: Option<Response>)

  datatype System = System(
    limit: nat,   // how long a publish call may take
    now: nat,
    promises: map<Token, Promise>,
    threads: seq<Attempt>,
    used: set<Token>)

  function Init(limit: nat, threads: nat): System {
    System(limit, 0, map[], seq(threads, i => Resting), {})
  }

  datatype Action =
    | Tick(millis: nat)
    | Sweep(thread: nat)
    | Publish(thread: nat, token: Token)
    | LookUp(thread: nat)
    | RespondAccepted(token: Token)
    | RespondRejected(token: Token, throttled: bool)
    | TakeResponse(thread: nat)
    | TimeOut(thread: nat)
    | Leave(thread: nat)

  ghost predicate Enabled(s: System, a: Action) {
    match a
    case Tick(millis) =>
      forall i :: 0 <= i < |s.threads| && s.threads[i].Publishing? ==>
                    s.now + millis <= s.threads[i].since + s.limit
    case Sweep(i) => i < |s.threads| && s.threads[i].Resting?
    case Publish(i, token) => i < |s.threads| && s.threads[i].Swept? && token !in s.used
    case LookUp(i) => i < |s.threads| && s.threads[i].Publishing?
    case RespondAccepted(_) => true
    case RespondRejected(_, _) => true
    case TakeResponse(i) =>
      i < |s.threads| && s.threads[i].Waiting? && s.threads[i].token in s.promises &&
      s.promises[s.threads[i].token].value.Some?
    case TimeOut(i) => i < |s.threads| && s.threads[i].Waiting? && s.now >= s.threads[i].since + WAIT
    case Leave(i) => i < |s.threads| && s.threads[i].Leaving?
  }

  ghost function Step(s: System, a: Action): System
    requires Enabled(s, a)
  {
    match a
    case Tick(millis) => s.(now := s.now + millis)
    case Sweep(i) => s.(promises := Live(s.promises, s.now), threads := s.threads[i := Swept])
    case Publish(i, token) =>
      s.(promises := if token in s.promises then s.promises else s.promises[token := Promise(s.now, None)],
         threads := s.threads[i := Publishing(token, s.now)], used := s.used + {token})
    case LookUp(i) =>
      var t := s.threads[i];
      s.(threads := s.threads[i := if t.token in s.promises then Waiting(t.token, t.since, s.now) else Failed])
    case RespondAccepted(token) => s.(promises := AcceptedSection(s.promises, token).0)
    case RespondRejected(token, throttled) => s.(promises := RejectedSection(s.promises, token, throttled).0)
    case TakeResponse(i) =>
      var token := s.threads[i].token;
      s.(threads := s.threads[i := Leaving(token, s.promises[token].value)])
    case TimeOut(i) => s.(threads := s.threads[i := Leaving(s.threads[i].token, None)])
    case Leave(i) => s.(promises := s.promises - {s.threads[i].token}, threads := s.threads[i := Resting])
  }

  ghost predicate Runs(s: System, actions: seq<Action>)
    decreases |actions|
  {
    actions != [] ==> Enabled(s, actions[0]) && Runs(Step(s, actions[0]), actions[1..])
  }

  ghost function After(s: System, actions: seq<Action>): System
    requires Runs(s, actions)
    decreases |actions|
  {
    if actions == [] then s else After(Step(s, actions[0]), actions[1..])
  }

  ghost predicate Reachable(s: System) {
    exists threads, actions :: Runs(Init(s.limit, threads), actions) && After(Init(s.limit, threads), actions) == s
  }

  predicate HasToken(t: Attempt) {
    t.Publishing? || t.Waiting? || t.Leaving?
  }

  /** The thread is still inside the ten seconds that it waits for a response. */
  predicate InsideWait(s: System, t: Attempt) {
    t.Waiting? && s.now < t.since + WAIT
  }

  ghost predicate Tokens(s: System) {
    && s.promises.Keys <= s.used
    && (forall i :: 0 <= i < |s.threads| && HasToken(s.threads[i]) ==> s.threads[i].token in s.used)
    && (forall i, j :: 0 <= i < j < |s.threads| && HasToken(s.threads[i]) && HasToken(s.threads[j]) ==>
          s.threads[i].token != s.threads[j].token)
  }

  ghost predicate Owner(s: System, token: Token) {
    exists i :: 0 <= i < |s.threads| && HasToken(s.threads[i]) && s.threads[i].token == token
  }

  ghost predicate Owned(s: System) {
    forall token :: token in s.promises ==> Owner(s, token)
  }

  predicate Entry(s: System, token: Token, created: nat) {
    token in s.promises && s.promises[token].created == created
  }

  /** The entry of a publish call is there for as long as the call takes. */
  predicate PublishTimed(s: System, t: Attempt) {
    (t.Publishing? ==> t.since <= s.now <= t.since + s.limit && Entry(s, t.token, t.since)) && !t.Failed?
  }

  predicate WaitTimed(s: System, t: Attempt) {
    && (t.Waiting? ==> t.since <= t.created + s.limit && t.since <= s.now)
    && (InsideWait(s, t) ==> Entry(s, t.token, t.created))
  }

  ghost predicate PublishTiming(s: System) {
    forall i :: 0 <= i < |s.threads| ==> PublishTimed(s, s.threads[i])
  }

  ghost predicate WaitTiming(s: System) {
    forall i :: 0 <= i < |s.threads| ==> WaitTimed(s, s.threads[i])
  }

  ghost predicate Inv(s: System) {
    && Tokens(s) && Owned(s)
    && (s.limit < TTL ==> PublishTiming(s))
    && (s.limit + WAIT <= TTL ==> WaitTiming(s))
  }

  lemma StepKeepsTokens(s: System, a: Action)
    requires Tokens(s) && Enabled(s, a)
    ensures Tokens(Step(s, a)) && Step(s, a).limit == s.limit && |Step(s, a).threads| == |s.threads|
  {
  }

  lemma StepKeepsOwned(s: System, a: Action)
    requires Tokens(s) && Owned(s) && Enabled(s, a)
    ensures Owned(Step(s, a))
  {
    var t := Step(s, a);
    forall token | token in t.promises ensures Owner(t, token) {
      if token in s.promises {
        var i :| 0 <= i < |s.threads| && HasToken(s.threads[i]) && s.threads[i].token == token;
        assert HasToken(t.threads[i]) && t.threads[i].token == token;
      } else {
        assert t.threads[a.thread].token == token;
      }
    }
  }

  lemma StepKeepsPublishTiming(s: System, a: Action)
    requires s.limit < TTL && Inv(s) && Enabled(s, a)
    ensures PublishTiming(Step(s, a))
  {
    var t := Step(s, a);
    forall i | 0 <= i < |t.threads| ensures PublishTimed(t, t.threads[i]) {
      assert PublishTimed(s, s.threads[i]);
    }
  }

  lemma StepKeepsWaitTiming(s: System, a: Action)
    requires s.limit + WAIT <= TTL && Inv(s) && Enabled(s, a)
    ensures WaitTiming(Step(s, a))
  {
    var t := Step(s, a);
    forall i | 0 <= i < |t.threads| ensures WaitTimed(t, t.threads[i]) {
      assert WaitTimed(s, s.threads[i]) && PublishTimed(s, s.threads[i]);
    }
  }

  lemma StepKeeps(s: System, a: Action)
    requires Inv(s) && Enabled(s, a)
    ensures Inv(Step(s, a)) && Step(s, a).limit == s.limit
  {
    StepKeepsTokens(s, a);
    StepKeepsOwned(s, a);
    if s.limit < TTL {
      StepKeepsPublishTiming(s, a);
    }
    if s.limit + WAIT <= TTL {
      StepKeepsWaitTiming(s, a);
    }
  }

  lemma {:induction false} RunKeeps(s: System, actions: seq<Action>)
    requires Inv(s) && Runs(s, actions)
    ensures Inv(After(s, actions)) && After(s, actions).limit == s.limit
    decreases |actions|
  {
    if actions != [] {
      StepKeeps(s, actions[0]);
      RunKeeps(Step(s, actions[0]), actions[1..]);
    }
  }

  lemma ReachableInv(s: System)
    requires Reachable(s)
    ensures Inv(s)
  {
    var threads, actions :| Runs(Init(s.limit, threads), actions) && After(Init(s.limit, threads), actions) == s;
    RunKeeps(Init(s.limit, threads), actions);
  }

  // ---------------------------------------------------------------- what every run guarantees

  lemma LookUpFindsPromise(s: System, i: nat)
    requires Reachable(s) && s.limit < TTL && Enabled(s, LookUp(i))
    ensures s.threads[i].token in s.promises
    ensures Step(s, LookUp(i)).threads[i] == Waiting(s.threads[i].token, s.threads[i].since, s.now)
  {
    ReachableInv(s);
    assert PublishTimed(s, s.threads[i]);
  }

  /** The lookup after a publish call, which throws on an unknown key, finds its entry in every run. */
  ghost predicate LookUpsSucceed(limit: nat) {
    forall s, i: nat :: Reachable(s) && s.limit == limit && Enabled(s, LookUp(i)) ==> s.threads[i].token in s.promises
  }

  /** It does if and only if a publish call takes less than the time to live. */
  lemma LookUpsSucceedIff(limit: nat)
    ensures LookUpsSucceed(limit) <==> limit < TTL
  {
    if limit < TTL {
      forall s, i: nat | Reachable(s) && s.limit == limit && Enabled(s, LookUp(i))
        ensures s.threads[i].token in s.promises
      {
        LookUpFindsPromise(s, i);
      }
    } else {
      var s := LostPromise(limit);
      assert Enabled(s, LookUp(0));
    }
  }

  /** A publish call of 15 s: another thread's sweep removes the promise before the call returns. */
  lemma LostPromise(limit: nat) returns (s: System)
    requires limit >= TTL
    ensures Reachable(s) && s.limit == limit && Enabled(s, LookUp(0)) && s.threads[0].token !in s.promises
  {
    var s0 := Init(limit, 2);
    var s1 := Step(s0, Sweep(0));
    var s2 := Step(s1, Publish(0, "token"));
    assert s2.threads == [Publishing("token", 0), Resting];
    var s3 := Step(s2, Tick(TTL));
    s := Step(s3, Sweep(1));
    RunOf(s3, [Sweep(1)], s);
    RunOf(s2, [Tick(TTL), Sweep(1)], s);
    RunOf(s1, [Publish(0, "token"), Tick(TTL), Sweep(1)], s);
    RunOf(s0, [Sweep(0), Publish(0, "token"), Tick(TTL), Sweep(1)], s);
  }

  /** No thread waits, inside its ten seconds, for a promise that is gone. */
  ghost predicate WaitsAreSafe(limit: nat) {
    forall s, i :: Reachable(s) && s.limit == limit && 0 <= i < |s.threads| && InsideWait(s, s.threads[i]) ==>
      s.threads[i].token in s.promises
  }

  /** The time to live covers the wait exactly if a publish call takes no more than the five seconds between. */
  lemma WaitsAreSafeIff(limit: nat)
    ensures WaitsAreSafe(limit) <==> limit + WAIT <= TTL
  {
    if limit + WAIT <= TTL {
      forall s, i | Reachable(s) && s.limit == limit && 0 <= i < |s.threads| && InsideWait(s, s.threads[i])
        ensures s.threads[i].token in s.promises
      {
        ReachableInv(s);
        assert WaitTimed(s, s.threads[i]);
      }
    } else {
      var s := SlowPublish(limit);
      assert InsideWait(s, s.threads[0]);
    }
  }

  /** A publish call of 5001 ms: another thread's sweep removes the promise one millisecond before the deadline. */
  lemma SlowPublish(limit: nat) returns (s: System)
    requires limit + WAIT > TTL
    ensures Reachable(s) && s.limit == limit && |s.threads| == 2
    ensures InsideWait(s, s.threads[0]) && s.threads[0].token !in s.promises
  {
    var s0 := Init(limit, 2);
    var s1 := Step(s0, Sweep(0));
    var s2 := Step(s1, Publish(0, "token"));
    assert s2.threads == [Publishing("token", 0), Resting];
    var s3 := Step(s2, Tick(5001));
    var s4 := Step(s3, LookUp(0));
    assert s4.threads == [Waiting("token", 0, 5001), Resting];
    var s5 := Step(s4, Tick(9999));
    s := Step(s5, Sweep(1));
    RunOf(s5, [Sweep(1)], s);
    RunOf(s4, [Tick(9999), Sweep(1)], s);
    RunOf(s3, [LookUp(0), Tick(9999), Sweep(1)], s);
    RunOf(s2, [Tick(5001), LookUp(0), Tick(9999), Sweep(1)], s);
    RunOf(s1, [Publish(0, "token"), Tick(5001), LookUp(0), Tick(9999), Sweep(1)], s);
    RunOf(s0, [Sweep(0), Publish(0, "token"), Tick(5001), LookUp(0), Tick(9999), Sweep(1)], s);
  }

  /** Puts one step in front of a run. */
  lemma RunOf(s: System, actions: seq<Action>, end: System)
    requires actions != [] && Enabled(s, actions[0])
    requires Runs(Step(s, actions[0]), actions[1..]) && After(Step(s, actions[0]), actions[1..]) == end
    ensures Runs(s, actions) && After(s, actions) == end
  {
  }

  /** A response to a waiting thread is delivered to that thread and to no other. */
  lemma ResponseReachesItsWaiter(s: System, i: nat, rejected: bool, throttled: bool)
    requires Reachable(s) && s.limit + WAIT <= TTL && i < |s.threads| && InsideWait(s, s.threads[i])
    requires s.threads[i].token in s.promises ==> s.promises[s.threads[i].token].value.None?
    ensures var token := s.threads[i].token;
            var response := if !rejected then Accepted else if throttled then RetryableError else NonRetryableError;
            var t := Step(s, if rejected then RespondRejected(token, throttled) else RespondAccepted(token));
            && (if rejected then RejectedSection(s.promises, token, throttled).1
                else AcceptedSection(s.promises, token).1) == Delivered
            && t.promises - {token} == s.promises - {token}
            && Enabled(t, TakeResponse(i))
            && Step(t, TakeResponse(i)).threads[i] == Leaving(token, Some(response))
  {
    ReachableInv(s);
    assert WaitTimed(s, s.threads[i]);
  }

  /** A completed attempt leaves no entry; with no attempt under way the map is empty. */
  lemma AttemptsLeaveNothing(s: System)
    requires Reachable(s)
    ensures forall i: nat :: Enabled(s, Leave(i)) ==> s.threads[i].token !in Step(s, Leave(i)).promises
    ensures (forall i :: 0 <= i < |s.threads| ==> !HasToken(s.threads[i])) ==> s.promises == map[]
  {
    ReachableInv(s);
    if s.promises != map[] {
      var token :| token in s.promises;
      assert Owner(s, token);
    }
  }

  /** A sweep removes exactly the promises made fifteen seconds ago or more, answered or not. */
  lemma SweepLeadsTo(s: System, i: nat)
    requires Enabled(s, Sweep(i))
    ensures var t := Step(s, Sweep(i));
            && (forall token :: token in t.promises <==>
                  token in s.promises && s.now < s.promises[token].created + 15 * 1000)
            && forall token :: token in t.promises ==> t.promises[token] == s.promises[token]
  {
  }

  // ---------------------------------------------------------------- responses that throw

  /** Some thread is between its publish and its leave with this token, and its entry has, or has not, an answer. */
  ghost predicate HeldWith(s: System, token: Token, answered: bool) {
    exists i :: 0 <= i < |s.threads| && HasToken(s.threads[i]) && s.threads[i].token == token &&
                token in s.promises && s.promises[token].value.Some? == answered
  }

  lemma HeldWithAnswer(s: System, token: Token, answered: bool)
    requires Reachable(s)
    ensures HeldWith(s, token, answered) <==> token in s.promises && s.promises[token].value.Some? == answered
  {
    ReachableInv(s);
    if token in s.promises && s.promises[token].value.Some? == answered {
      assert Owner(s, token);
      var i :| 0 <= i < |s.threads| && HasToken(s.threads[i]) && s.threads[i].token == token;
      assert HasToken(s.threads[i]) && s.threads[i].token == token;
    }
  }

  /** A rejected response throws if and only if no thread holds its token with an entry that is not answered yet. */
  lemma RejectionThrowsIff(s: System, token: Token, throttled: bool)
    requires Reachable(s)
    ensures RejectedSection(s.promises, token, throttled).1 == Throws <==> !HeldWith(s, token, false)
  {
    HeldWithAnswer(s, token, false);
  }

  /** An accepted response throws if and only if some thread holds its token with an entry that is answered. */
  lemma AcceptanceThrowsIff(s: System, token: Token)
    requires Reachable(s)
    ensures AcceptedSection(s.promises, token).1 == Throws <==> HeldWith(s, token, true)
  {
    HeldWithAnswer(s, token, true);
  }

  /** The response arrives after its thread has waited ten seconds and left. */
  lemma LateRejection(limit: nat) returns (s: System)
    ensures Reachable(s) && s.limit == limit && s.threads == [Resting] && "token" in s.used
    ensures RejectedSection(s.promises, "token", true).1 == Throws
    ensures AcceptedSection(s.promises, "token").1 == NotFound
  {
    var s1 := Step(Init(limit, 1), Sweep(0));
    var s2 := Step(s1, Publish(0, "token"));
    assert s2.threads == [Publishing("token", 0)];
    var s3 := Step(s2, LookUp(0));
    assert s3.threads == [Waiting("token", 0, 0)];
    var s4 := Step(s3, Tick(10000));
    var s5 := Step(s4, TimeOut(0));
    s := Step(s5, Leave(0));
    RunOf(s5, [Leave(0)], s);
    RunOf(s4, [TimeOut(0), Leave(0)], s);
    RunOf(s3, [Tick(10000), TimeOut(0), Leave(0)], s);
    RunOf(s2, [LookUp(0), Tick(10000), TimeOut(0), Leave(0)], s);
    RunOf(s1, [Publish(0, "token"), LookUp(0), Tick(10000), TimeOut(0), Leave(0)], s);
    RunOf(Init(limit, 1), [Sweep(0), Publish(0, "token"), LookUp(0), Tick(10000), TimeOut(0), Leave(0)], s);
  }

  /** Two responses to one update arrive before its thread has taken the first. */
  lemma SecondResponse(limit: nat, throttled: bool) returns (s: System)
    ensures Reachable(s) && s.limit == limit && s.threads == [Waiting("token", 0, 0)]
    ensures AcceptedSection(s.promises, "token").1 == Throws
    ensures RejectedSection(s.promises, "token", throttled).1 == Throws
  {
    var s1 := Step(Init(limit, 1), Sweep(0));
    var s2 := Step(s1, Publish(0, "token"));
    assert s2.threads == [Publishing("token", 0)];
    var s3 := Step(s2, LookUp(0));
    s := Step(s3, RespondAccepted("token"));
    assert s.threads == [Waiting("token", 0, 0)];
    RunOf(s3, [RespondAccepted("token")], s);
    RunOf(s2, [LookUp(0), RespondAccepted("token")], s);
    RunOf(s1, [Publish(0, "token"), LookUp(0), RespondAccepted("token")], s);
    RunOf(Init(limit, 1), [Sweep(0), Publish(0, "token"), LookUp(0), RespondAccepted("token")], s);
  }
}

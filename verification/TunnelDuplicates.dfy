/**
 The test for repeated tunnel notifications (source/tunneling/SecureTunnelingFeature.cpp,
 source/tunneling/SecureTunnelingContext.cpp).  Every open tunnel remembers the last notification it was asked about;
 a tunnel that has just been opened remembers none, not even its own.  Notifications are
 named by numbers; no tunnel stops while they are repeated.
 */
module TunnelDuplicates {
  import opened Options

  /** Asks the tunnels in order; each one asked remembers the notification, the first that knew it ends the search. */
  function Ask(seen: seq<Option<nat>>, response: nat): (r: (seq<Option<nat>>, bool))
    ensures |r.0| == |seen|
  {
    if seen == [] then ([], false)
    else if seen[0] == Some(response) then (seen, true)
    else
      var (rest, duplicate) := Ask(seen[1..], response);
      ([Some(response)] + rest, duplicate)
  }

  /** A notification that is not a duplicate is taken on; its tunnel stays listed if it connects. */
  function Notify(seen: seq<Option<nat>>, response: nat, connects: bool): seq<Option<nat>> {
    var (asked, duplicate) := Ask(seen, response);
    if duplicate || !connects then asked else asked + [None]
  }

  /** The same notification again and again; `connects` says which of the attempts to connect would succeed. */
  function Repeat(seen: seq<Option<nat>>, response: nat, connects: seq<bool>): seq<Option<nat>>
    decreases |connects|
  {
    if connects == [] then seen else Repeat(Notify(seen, response, connects[0]), response, connects[1..])
  }

  /** How many of the repetitions are taken on. */
  function Attempts(seen: seq<Option<nat>>, response: nat, connects: seq<bool>): nat
    decreases |connects|
  {
    if connects == [] then 0
    else
      (if Ask(seen, response).1 then 0 else 1) +
      Attempts(Notify(seen, response, connects[0]), response, connects[1..])
  }

  /** The number of failures before the first success. */
  function Failures(connects: seq<bool>): (n: nat)
    ensures n <= |connects|
    ensures n < |connects| ==> connects[n]
    ensures forall i :: 0 <= i < n ==> !connects[i]
  {
    if connects == [] || connects[0] then 0 else 1 + Failures(connects[1..])
  }

  class Contexts {
    var mLastSeenNotifyResponse: seq<Option<nat>>

    constructor (configured: seq<Option<nat>>)
      ensures mLastSeenNotifyResponse == configured
    {
      mLastSeenNotifyResponse := configured;
    }

    /** One tunnel's own test, which also changes what it remembers. */
    method IsDuplicateNotification(context: nat, response: nat) returns (duplicate: bool)
      requires context < |mLastSeenNotifyResponse|
      modifies this
      ensures duplicate == (old(mLastSeenNotifyResponse)[context] == Some(response))
      ensures mLastSeenNotifyResponse == old(mLastSeenNotifyResponse)[context := Some(response)]
    {
      if mLastSeenNotifyResponse[context] == Some(response) {
        assert mLastSeenNotifyResponse == mLastSeenNotifyResponse[context := Some(response)];
        return true;
      }
      mLastSeenNotifyResponse := mLastSeenNotifyResponse[context := Some(response)];
      return false;
    }

    /** `connects` is the result of the connect, if it comes to one. */
    method AcceptNotification(response: nat, connects: bool) returns (attempts: bool)
      modifies this
      ensures mLastSeenNotifyResponse == Notify(old(mLastSeenNotifyResponse), response, connects)
      ensures attempts == !Ask(old(mLastSeenNotifyResponse), response).1
    {
      ghost var was := mLastSeenNotifyResponse;
      var i := 0;
      assert was[0..] == was;
      while i < |mLastSeenNotifyResponse|
        invariant 0 <= i <= |was| == |mLastSeenNotifyResponse|
        invariant mLastSeenNotifyResponse[i..] == was[i..]
        invariant Ask(was, response).1 == Ask(was[i..], response).1
        invariant Ask(was, response).0 == mLastSeenNotifyResponse[..i] + Ask(was[i..], response).0
      {
        assert was[i..][0] == was[i] == mLastSeenNotifyResponse[i..][0] && was[i..][1..] == was[i + 1..];
        var duplicate := IsDuplicateNotification(i, response);
        if duplicate {
          return false;
        }
        i := i + 1;
      }
      ghost var asked := mLastSeenNotifyResponse;
      mLastSeenNotifyResponse := mLastSeenNotifyResponse + [None];
      if !connects {
        mLastSeenNotifyResponse := mLastSeenNotifyResponse[..|mLastSeenNotifyResponse| - 1];
        assert mLastSeenNotifyResponse == asked;
      }
      return true;
    }
  }

  /** A notification is taken for a duplicate exactly if some tunnel remembers it; a tunnel that is asked does then. */
  lemma {:induction false} AskMeaning(seen: seq<Option<nat>>, response: nat)
    ensures Ask(seen, response).1 <==> Some(response) in seen
    ensures seen != [] ==> Some(response) in Ask(seen, response).0
  {
    if seen != [] && seen[0] != Some(response) {
      AskMeaning(seen[1..], response);
      assert seen == [seen[0]] + seen[1..];
    }
  }

  /** A notification that follows itself is ignored exactly if a tunnel was open before the first of the two. */
  lemma RepeatIgnoredIff(seen: seq<Option<nat>>, response: nat, connects: bool)
    ensures Ask(Notify(seen, response, connects), response).1 <==> seen != []
  {
    AskMeaning(seen, response);
    AskMeaning(Notify(seen, response, connects), response);
  }

  lemma {:induction false} RememberedIsIgnored(seen: seq<Option<nat>>, response: nat, connects: seq<bool>)
    requires Some(response) in seen
    ensures Attempts(seen, response, connects) == 0 && |Repeat(seen, response, connects)| == |seen|
    decreases |connects|
  {
    if connects != [] {
      AskMeaning(seen, response);
      RememberedIsIgnored(Notify(seen, response, connects[0]), response, connects[1..]);
    }
  }

  /** With a tunnel open, repetitions are taken on once at most, whether that attempt connects or not. */
  lemma OpenTunnelRemembers(seen: seq<Option<nat>>, response: nat, connects: seq<bool>)
    requires seen != [] && Some(response) !in seen && connects != []
    ensures Attempts(seen, response, connects) == 1
    ensures |Repeat(seen, response, connects)| == |seen| + if connects[0] then 1 else 0
  {
    AskMeaning(seen, response);
    RememberedIsIgnored(Notify(seen, response, connects[0]), response, connects[1..]);
  }

  /** With none open, each repetition is taken on until one connects, and then one more. */
  lemma {:induction false} RepeatsFromNone(response: nat, connects: seq<bool>)
    ensures var f := Failures(connects);
            && Attempts([], response, connects) == (if f + 2 <= |connects| then f + 2 else |connects|)
            && |Repeat([], response, connects)| ==
               (if f == |connects| then 0 else if f + 1 < |connects| && connects[f + 1] then 2 else 1)
  {
    if connects != [] {
      if connects[0] {
        if |connects| > 1 {
          OpenTunnelRemembers([None], response, connects[1..]);
        } else {
          assert connects[1..] == [];
        }
      } else {
        RepeatsFromNone(response, connects[1..]);
      }
    }
  }

  /** How often the repetitions of a notification are taken on, from any list of open tunnels. */
  lemma RepeatsOpen(seen: seq<Option<nat>>, response: nat, connects: seq<bool>)
    requires connects != []
    ensures var f := Failures(connects);
            Attempts(seen, response, connects) ==
            if Some(response) in seen then 0
            else if seen != [] then 1
            else if f + 2 <= |connects| then f + 2 else |connects|
  {
    if Some(response) in seen {
      RememberedIsIgnored(seen, response, connects);
    } else if seen != [] {
      OpenTunnelRemembers(seen, response, connects);
    } else {
      RepeatsFromNone(response, connects);
    }
  }
}

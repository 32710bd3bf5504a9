/**
  Broadcasting one envelope to several orderers: one worker per orderer sends its result into a
  channel that is buffered for all of them, and the caller stops receiving once the quorum is reached.
 */
module Broadcast {

  /** The result of one orderer, or of the whole broadcast: nil or an error. */
  datatype Reply = Success | Failure(reason: string)

  function Successes(replies: seq<Reply>): nat {
    if replies == [] then 0
    else Successes(replies[..|replies| - 1]) + if replies[|replies| - 1].Success? then 1 else 0
  }

  /** The caller is still receiving, or has returned. */
  datatype Caller = Receiving | Returned(result: Reply)

  /** Where the caller stands after the given replies have arrived from n orderers. */
  function Decide(replies: seq<Reply>, quorum: int, n: nat): Caller {
    if replies != [] && replies[|replies| - 1].Success? && Successes(replies) >= quorum then Returned(Success)
    else if |replies| >= n then
      Returned(if replies == [] || Successes(replies) > 0 then Success else replies[|replies| - 1])
    else Receiving
  }

  lemma {:induction false} SuccessesIffSome(replies: seq<Reply>)
    ensures Successes(replies) > 0 <==> Success in replies
    ensures Successes(replies) <= |replies|
  {
    if replies == [] {
    } else {
      SuccessesIffSome(replies[..|replies| - 1]);
      assert replies == replies[..|replies| - 1] + [replies[|replies| - 1]];
    }
  }

  ghost function SuccessfulOnes(replies: seq<Reply>): set<int> {
    set i | 0 <= i < |replies| && replies[i] == Success
  }

  lemma OneMoreReply(replies: seq<Reply>)
    requires replies != []
    ensures var front := replies[..|replies| - 1];
            && |replies| - 1 !in SuccessfulOnes(front)
            && SuccessfulOnes(replies)
            == SuccessfulOnes(front) + if replies[|replies| - 1] == Success then {|replies| - 1} else {}
  {
  }

  /** Successes are counted one by one. */
  lemma {:induction false} SuccessesAreCounted(replies: seq<Reply>)
    ensures Successes(replies) == |SuccessfulOnes(replies)|
  {
    hide SuccessfulOnes;
    if replies == [] {
      assert SuccessfulOnes([]) == {} by {
        NoReplies();
      }
    } else {
      SuccessesAreCounted(replies[..|replies| - 1]);
      OneMoreReply(replies);
    }
  }

  lemma NoReplies()
    ensures SuccessfulOnes([]) == {}
  {
  }

  /** A result of nil means a success among the replies received, and an error means that all of them failed. */
  lemma DecisionMeaning(replies: seq<Reply>, quorum: int, n: nat)
    requires 1 <= n && |replies| <= n
    ensures Decide(replies, quorum, n) == Returned(Success) ==> Success in replies
    ensures Decide(replies, quorum, n).Returned? && Decide(replies, quorum, n) != Returned(Success) ==>
              |replies| == n && Success !in replies && Decide(replies, quorum, n) == Returned(replies[n - 1])
  {
    SuccessesIffSome(replies);
  }

  // ---- The receiving loop ----

  /** The caller returns with this result after that many replies, and not before. */
  ghost predicate ReturnsAfter(arrivals: seq<Reply>, quorum: int, taken: nat, result: Reply) {
    && taken <= |arrivals|
    && Decide(arrivals[..taken], quorum, |arrivals|) == Returned(result)
    && forall k | 0 <= k < taken :: Decide(arrivals[..k], quorum, |arrivals|) == Receiving
  }

  /** The replies arrive in any order; those behind the early exit are never looked at. */
  method OrdererBroadcast(arrivals: seq<Reply>, quorum: int) returns (result: Reply)
    ensures exists taken :: ReturnsAfter(arrivals, quorum, taken, result)
    ensures arrivals == [] ==> result == Success
    ensures arrivals != [] ==> (result == Success <==> exists i :: 0 <= i < |arrivals| && arrivals[i] == Success)
    ensures arrivals != [] && result != Success ==> result == arrivals[|arrivals| - 1]
  {
    var err: Reply := Success;
    var goodCount := 0;
    for i := 0 to |arrivals|
      invariant goodCount == Successes(arrivals[..i])
      invariant goodCount == 0 ==> err == if i == 0 then Success else arrivals[i - 1]
      invariant forall k | 0 <= k < i :: Decide(arrivals[..k], quorum, |arrivals|) == Receiving
      invariant i < |arrivals| ==> Decide(arrivals[..i], quorum, |arrivals|) == Receiving
      invariant i == |arrivals| > 0 ==> !(arrivals[i - 1].Success? && goodCount >= quorum)
    {
      var res := arrivals[i];
      assert arrivals[..i + 1][..i] == arrivals[..i];
      if res != Success {
        err := res;
        continue;
      }
      goodCount := goodCount + 1;
      if goodCount >= quorum {
        assert ReturnsAfter(arrivals, quorum, i + 1, Success);
        assert arrivals[i] == Success;
        return Success;
      }
    }
    result := if goodCount > 0 then Success else err;
    assert ReturnsAfter(arrivals, quorum, |arrivals|, result);
    if arrivals != [] {
      NilIffSomeSuccess(arrivals, quorum, |arrivals|, result);
    }
  }

  /** For every arrival order and every quorum: nil iff some orderer accepted, or else the last error to arrive. */
  lemma NilIffSomeSuccess(arrivals: seq<Reply>, quorum: int, taken: nat, result: Reply)
    requires |arrivals| >= 1 && ReturnsAfter(arrivals, quorum, taken, result)
    ensures result == Success <==> Success in arrivals
    ensures result != Success ==> result == arrivals[|arrivals| - 1]
  {
    DecisionMeaning(arrivals[..taken], quorum, |arrivals|);
    assert taken == |arrivals| ==> arrivals[..taken] == arrivals;
    assert Success in arrivals[..taken] ==> Success in arrivals;
  }

  /** The success at which the caller stops waiting: the quorum-th, or the first if the quorum is not positive. */
  function Needed(quorum: int): int {
    if quorum < 1 then 1 else quorum
  }

  /** The early exit is exactly at the quorum-th success; without that many all replies are received. */
  lemma ExitAtQuorum(arrivals: seq<Reply>, quorum: int, taken: nat, result: Reply)
    requires ReturnsAfter(arrivals, quorum, taken, result)
    ensures Successes(arrivals) >= Needed(quorum) ==>
              taken > 0 && arrivals[taken - 1].Success? && Successes(arrivals[..taken]) == Needed(quorum)
    ensures Successes(arrivals) < Needed(quorum) ==> taken == |arrivals|
  {
    BelowQuorumBefore(arrivals, quorum, taken);
    SuccessesGrow(arrivals, taken);
    if taken == |arrivals| {
      assert arrivals[..taken] == arrivals;
    }
    if taken > 0 {
      assert arrivals[..taken][..taken - 1] == arrivals[..taken - 1];
    }
  }

  lemma {:induction false} SuccessesGrow(arrivals: seq<Reply>, k: nat)
    requires k <= |arrivals|
    ensures Successes(arrivals[..k]) <= Successes(arrivals)
  {
    if k < |arrivals| {
      assert arrivals[..|arrivals| - 1][..k] == arrivals[..k];
      SuccessesGrow(arrivals[..|arrivals| - 1], k);
    } else {
      assert arrivals[..k] == arrivals;
    }
  }

  lemma {:induction false} BelowQuorumBefore(arrivals: seq<Reply>, quorum: int, taken: nat)
    requires taken <= |arrivals|
    requires forall k | 0 <= k < taken :: Decide(arrivals[..k], quorum, |arrivals|) == Receiving
    ensures taken > 0 ==> Successes(arrivals[..taken - 1]) < Needed(quorum)
  {
    if taken <= 1 {
    } else {
      BelowQuorumBefore(arrivals, quorum, taken - 1);
      assert Decide(arrivals[..taken - 1], quorum, |arrivals|) == Receiving;
      assert arrivals[..taken - 1][..taken - 2] == arrivals[..taken - 2];
    }
  }

  // ---- Workers and caller, interleaved ----

  /** Workers are numbered; running ones have not sent yet, and sent records what the others have sent. */
  datatype State = State(n: nat, quorum: int, running: set<nat>, sent: map<nat, Reply>,
                         buffer: seq<Reply>, taken: seq<Reply>, caller: Caller)

  datatype Action = Send(worker: nat, reply: Reply) | Receive

  /** The numbers of the n workers. */
  function Below(n: nat): (w: set<nat>)
    ensures |w| == n
    ensures forall i: nat :: i in w <==> i < n
  {
    if n == 0 then {} else Below(n - 1) + {n - 1}
  }

  function Init(n: nat, quorum: int): State {
    State(n, quorum, Below(n), map[], [], [], Decide([], quorum, n))
  }

  predicate Enabled(s: State, a: Action) {
    match a
    case Send(i, _) => i in s.running && |s.buffer| < s.n
    case Receive => s.caller.Receiving? && s.buffer != []
  }

  function Do(s: State, a: Action): State
    requires Enabled(s, a)
  {
    match a
    case Send(i, reply) => s.(running := s.running - {i}, sent := s.sent[i := reply], buffer := s.buffer + [reply])
    case Receive =>
      var taken := s.taken + [s.buffer[0]];
      s.(buffer := s.buffer[1..], taken := taken, caller := Decide(taken, s.quorum, s.n))
  }

  /** Whatever has been received or waits in the buffer was sent by some worker, and the other way round. */
  ghost predicate Traced(s: State) {
    && (forall r | r in s.buffer || r in s.taken :: exists i :: i in s.sent && s.sent[i] == r)
    && (forall i | i in s.sent :: s.sent[i] in s.buffer || s.sent[i] in s.taken)
  }

  ghost predicate Inv(s: State) {
    && |s.running| + |s.buffer| + |s.taken| == s.n
    && s.caller == Decide(s.taken, s.quorum, s.n)
    && (forall i | i in s.running :: i !in s.sent)
    && (forall i: nat | i < s.n :: i in s.running || i in s.sent)
    && Traced(s)
  }

  lemma InitInv(n: nat, quorum: int)
    ensures Inv(Init(n, quorum))
  {
  }

  lemma TracedStep(s: State, a: Action)
    requires Inv(s) && Enabled(s, a)
    ensures Traced(Do(s, a))
  {
    hide Decide;
    var t := Do(s, a);
    forall i | i in s.sent
      ensures i in t.sent && t.sent[i] == s.sent[i] && (t.sent[i] in t.buffer || t.sent[i] in t.taken)
    {
      assert a.Receive? ==> s.buffer == [s.buffer[0]] + t.buffer;
    }
    forall r | r in t.buffer || r in t.taken ensures exists i :: i in t.sent && t.sent[i] == r {
      if r in s.buffer || r in s.taken {
        var i :| i in s.sent && s.sent[i] == r;
        assert t.sent[i] == r;
      } else {
        assert t.sent[a.worker] == r;
      }
    }
  }

  lemma StepInv(s: State, a: Action)
    requires Inv(s) && Enabled(s, a)
    ensures Inv(Do(s, a))
  {
    hide Traced, Decide;
    TracedStep(s, a);
    if a.Send? {
      assert |Do(s, a).running| == |s.running| - 1;
    }
  }

  // ---- Runs ----

  ghost predicate IsRun(states: seq<State>, actions: seq<Action>, n: nat, quorum: int) {
    && |states| == |actions| + 1
    && states[0] == Init(n, quorum)
    && forall k | 0 <= k < |actions| :: Enabled(states[k], actions[k]) && states[k + 1] == Do(states[k], actions[k])
  }

  lemma {:induction false} RunInv(states: seq<State>, actions: seq<Action>, n: nat, quorum: int, k: nat)
    requires IsRun(states, actions, n, quorum) && k < |states|
    ensures Inv(states[k]) && states[k].n == n && states[k].quorum == quorum
    ensures k + 2 * |states[k].running| + |states[k].buffer| == 2 * n
  {
    if k == 0 {
      InitInv(n, quorum);
    } else {
      RunInv(states, actions, n, quorum, k - 1);
      StepInv(states[k - 1], actions[k - 1]);
      if actions[k - 1].Send? {
        assert |states[k].running| == |states[k - 1].running| - 1;
      }
    }
  }

  /**
    In every interleaving, whatever the quorum: no worker blocks, the caller never waits in vain, and at most 2n steps
    are taken.
   */
  lemma NeverStuck(states: seq<State>, actions: seq<Action>, n: nat, quorum: int, k: nat)
    requires IsRun(states, actions, n, quorum) && k < |states|
    ensures forall i, reply | i in states[k].running :: Enabled(states[k], Send(i, reply))
    ensures states[k].caller.Receiving? ==> states[k].running != {} || Enabled(states[k], Receive)
    ensures |actions| <= 2 * n
  {
    RunInv(states, actions, n, quorum, k);
    RunInv(states, actions, n, quorum, |actions|);
    var s := states[k];
    forall i | i in s.running ensures |s.buffer| < s.n {
      assert s.running == {i} + (s.running - {i});
    }
    if s.running == {} && s.buffer == [] {
      assert |s.taken| == n;
    }
  }

  /** In every interleaving: nil means that some orderer accepted, an error that all n have failed. */
  lemma ResultMeaning(states: seq<State>, actions: seq<Action>, n: nat, quorum: int, k: nat)
    requires IsRun(states, actions, n, quorum) && k < |states| && n >= 1
    requires states[k].caller.Returned?
    ensures states[k].caller.result == Success ==> exists i :: i in states[k].sent && states[k].sent[i] == Success
    ensures states[k].caller.result != Success ==>
              forall i: nat | i < n :: i in states[k].sent && states[k].sent[i] != Success
  {
    RunInv(states, actions, n, quorum, k);
    ResultOfState(states[k]);
  }

  lemma ResultOfState(s: State)
    requires Inv(s) && s.n >= 1 && s.caller.Returned?
    ensures s.caller.result == Success ==> exists i :: i in s.sent && s.sent[i] == Success
    ensures s.caller.result != Success ==> forall i: nat | i < s.n :: i in s.sent && s.sent[i] != Success
  {
    DecisionMeaning(s.taken, s.quorum, s.n);
    if s.caller.result != Success {
      assert |s.running| == 0 && |s.buffer| == 0;
    }
  }
}

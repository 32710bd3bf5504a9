/**
  Submitting a channel update: a goroutine per local peer subscribes to the transaction, the caller
  waits until one of them has announced that it is ready, broadcasts the envelope to the orderers,
  and then waits for the subscription's result. Every interleaving of these parties is a run.
 */
module Submit {
  import opened Outcomes
  import opened Quorum
  import opened Delivery
  import B = Broadcast

  datatype Consensus = Raft | Bft | OtherConsensus

  datatype Setup = Setup(txId: string, peers: nat, consensus: Consensus, orderers: nat)

  /** Where the goroutine of one peer stands. */
  datatype Pc =
    | NotStarted
    | Opening                 // opening the stream and sending the seek request
    | CheckingReady           // the seek request has been sent
    | ClosingReady            // saw the channel open, about to close it
    | Receiving
    | HasCode(code: int)      // blocked on the unbuffered result channel
    | Finished(code: int)     // the code has been collected, the wait group released

  /** sought: the seek request was sent; stream: the events received so far. */
  datatype Peer = Peer(pc: Pc, sought: bool, stream: seq<Event>)

  /** The goroutine that runs SubscribeTxAll. */
  datatype Subscription = Launching(next: nat) | Collecting | Concluded(ok: bool)

  /** The caller of the update. */
  datatype Caller = WaitReady | Broadcasting | WaitResult | Returned(ok: bool)

  datatype State = State(
    peers: seq<Peer>,
    ready: bool,               // the ready channel has been closed
    panicked: bool,            // it was closed a second time, and the process is gone
    sub: Subscription,
    codes: seq<int>,           // the codes collected by SubscribeTxAll
    caller: Caller,
    broadcast: Option<B.State>)

  datatype Action =
    | Launch
    | LaunchCancelled
    | OpenFails(peer: nat)
    | SeekFails(peer: nat)
    | SeekSent(peer: nat)
    | CheckReady(peer: nat)
    | CloseReady(peer: nat)
    | Receive(peer: nat, event: Event)
    | Collect(peer: nat)
    | Conclude
    | SeeReady(targets: seq<nat>)
    | NoOrderers
    | OfBroadcast(action: B.Action)
    | BroadcastReturns
    | TakeResult
    | Cancel

  function Init(c: Setup): State {
    State(seq(c.peers, _ => Peer(NotStarted, false, [])), false, false,
          if c.peers == 0 then Collecting else Launching(0), [], WaitReady, None)
  }

  /** The orderers that the envelope may be sent to: one at random for Raft, never the last one; all of them for BFT. */
  predicate ValidTargets(c: Setup, targets: seq<nat>) {
    match c.consensus
    case Raft => |targets| == 1 && targets[0] < c.orderers - 1
    case Bft => |targets| == c.orderers && forall i | 0 <= i < |targets| :: targets[i] == i
    case OtherConsensus => false
  }

  function QuorumFor(c: Setup): int {
    if c.consensus == Bft then QuorumBft(c.orderers) else 1
  }

  /** One code for every peer, and all of them valid. */
  predicate AllValid(codes: seq<int>, peers: nat) {
    |codes| == peers && forall k | 0 <= k < |codes| :: codes[k] == VALID
  }

  method CheckCodes(codes: seq<int>, peers: nat) returns (ok: bool)
    ensures ok <==> AllValid(codes, peers)
    ensures ok <==> |codes| == peers && forall k | 0 <= k < |codes| :: codes[k] == 0
  {
    if |codes| != peers {
      return false;
    }
    for k := 0 to |codes|
      invariant forall l | 0 <= l < k :: codes[l] == VALID
    {
      if codes[k] != VALID {
        return false;
      }
    }
    return true;
  }

  // ---- Steps ----

  predicate At(s: State, i: nat, pc: Pc) {
    i < |s.peers| && s.peers[i].pc == pc
  }

  predicate Enabled(c: Setup, s: State, a: Action) {
    && !s.panicked
    && match a
       case Launch => s.sub.Launching? && At(s, s.sub.next, NotStarted)
       case LaunchCancelled => s.sub.Launching?
       case OpenFails(i) => At(s, i, Opening)
       case SeekFails(i) => At(s, i, Opening)
       case SeekSent(i) => At(s, i, Opening)
       case CheckReady(i) => At(s, i, CheckingReady)
       case CloseReady(i) => At(s, i, ClosingReady)
       case Receive(i, e) => At(s, i, Pc.Receiving)
       case Collect(i) => i < |s.peers| && s.peers[i].pc.HasCode? && s.sub.Collecting?
       case Conclude => s.sub.Collecting? && forall i | 0 <= i < |s.peers| :: s.peers[i].pc.Finished?
       case SeeReady(targets) => s.caller.WaitReady? && s.ready && ValidTargets(c, targets)
       case NoOrderers => s.caller.WaitReady? && s.ready
       case OfBroadcast(b) => s.broadcast.Some? && B.Enabled(s.broadcast.value, b)
       case BroadcastReturns => s.caller.Broadcasting? && s.broadcast.Some? && s.broadcast.value.caller.Returned?
       case TakeResult => s.caller.WaitResult? && s.sub.Concluded?
       case Cancel => s.caller.WaitReady? || s.caller.WaitResult?
  }

  function SetPeer(s: State, i: nat, p: Peer): State
    requires i < |s.peers|
  {
    s.(peers := s.peers[i := p])
  }

  function AfterEvent(c: Setup, p: Peer, e: Event): Peer {
    var verdict := Decides(e, c.txId);
    Peer(if verdict.Some? then HasCode(verdict.value) else Pc.Receiving, p.sought, p.stream + [e])
  }

  function Do(c: Setup, s: State, a: Action): State
    requires Enabled(c, s, a)
  {
    match a
    case Launch =>
      var next := s.sub.next + 1;
      var sub := if next == |s.peers| then Collecting else Launching(next);
      SetPeer(s, s.sub.next, s.peers[s.sub.next].(pc := Opening)).(sub := sub)
    case LaunchCancelled => s.(sub := Concluded(false))
    case OpenFails(i) => SetPeer(s, i, s.peers[i].(pc := HasCode(NO_CODE)))
    case SeekFails(i) => SetPeer(s, i, s.peers[i].(pc := HasCode(NO_CODE)))
    case SeekSent(i) => SetPeer(s, i, s.peers[i].(pc := CheckingReady, sought := true))
    case CheckReady(i) => SetPeer(s, i, s.peers[i].(pc := if s.ready then Pc.Receiving else ClosingReady))
    case CloseReady(i) => SetPeer(s, i, s.peers[i].(pc := Pc.Receiving)).(ready := true, panicked := s.ready)
    case Receive(i, e) => SetPeer(s, i, AfterEvent(c, s.peers[i], e))
    case Collect(i) =>
      var code := s.peers[i].pc.code;
      SetPeer(s, i, s.peers[i].(pc := Finished(code))).(codes := s.codes + [code])
    case Conclude => s.(sub := Concluded(AllValid(s.codes, |s.peers|)))
    case SeeReady(targets) => s.(caller := Broadcasting, broadcast := Some(B.Init(|targets|, QuorumFor(c))))
    case NoOrderers => s.(caller := Returned(false))
    case OfBroadcast(b) => s.(broadcast := Some(B.Do(s.broadcast.value, b)))
    case BroadcastReturns =>
      s.(caller := if s.broadcast.value.caller.result == B.Success then WaitResult else Returned(false))
    case TakeResult => s.(caller := Returned(s.sub.ok))
    case Cancel => s.(caller := Returned(false))
  }

  // ---- The invariant ----

  /** A peer that holds a code was either told it by its stream, or gave up. */
  ghost predicate PeerOk(c: Setup, p: Peer) {
    match p.pc
    case NotStarted => p.stream == [] && !p.sought
    case Opening => p.stream == [] && !p.sought
    case CheckingReady => p.sought && p.stream == []
    case ClosingReady => p.sought && p.stream == []
    case Receiving => p.sought && Verdict(p.stream, c.txId) == None
    case HasCode(code) => CodeOk(c, p.stream, code)
    case Finished(code) => CodeOk(c, p.stream, code)
  }

  /** The verdict of the stream; or the error code, if the stream was never received from. */
  ghost predicate CodeOk(c: Setup, stream: seq<Event>, code: int) {
    if stream == [] then code == NO_CODE else Verdict(stream, c.txId) == Some(code)
  }

  function FinishedCount(peers: seq<Peer>): nat {
    if peers == [] then 0
    else FinishedCount(peers[..|peers| - 1]) + if peers[|peers| - 1].pc.Finished? then 1 else 0
  }

  /** The codes collected are those of the finished peers, one for each. */
  ghost predicate CodesInv(s: State) {
    && |s.codes| == FinishedCount(s.peers)
    && (forall k | 0 <= k < |s.codes| :: exists i :: 0 <= i < |s.peers| && s.peers[i].pc == Finished(s.codes[k]))
  }

  ghost predicate SomeSought(s: State) {
    exists i :: 0 <= i < |s.peers| && s.peers[i].sought
  }

  /** Every peer has reported that the transaction is valid. */
  ghost predicate AllReported(c: Setup, s: State) {
    forall i | 0 <= i < |s.peers| :: Reports(s.peers[i].stream, c.txId, VALID)
  }

  /** Some orderer has accepted the envelope. */
  ghost predicate SomeAccepted(s: State) {
    s.broadcast.Some? && exists j :: j in s.broadcast.value.sent && s.broadcast.value.sent[j] == B.Success
  }

  ghost predicate PeersInv(c: Setup, s: State) {
    && |s.peers| == c.peers
    && (forall i | 0 <= i < |s.peers| :: PeerOk(c, s.peers[i]))
    && (forall i | 0 <= i < |s.peers| :: s.peers[i].pc.Finished? ==> s.peers[i].pc.code in s.codes)
    && CodesInv(s)
    && (s.sub.Launching? ==>
        s.sub.next < c.peers && forall i | s.sub.next <= i < |s.peers| :: s.peers[i].pc == NotStarted)
  }

  /** Nobody is told to go ahead before some seek request was sent. */
  ghost predicate HandshakeInv(c: Setup, s: State) {
    && (s.ready ==> SomeSought(s))
    && (s.broadcast.Some? ==> SomeSought(s) && B.Inv(s.broadcast.value))
    && (s.broadcast.Some? && c.orderers >= 1 ==> s.broadcast.value.n >= 1)
    && (s.caller.Broadcasting? ==> s.broadcast.Some?)
  }

  /** Good results rest on reports and on an acceptance. */
  ghost predicate ResultInv(c: Setup, s: State) {
    && (s.sub == Concluded(true) ==> AllReported(c, s))
    && (s.caller.WaitResult? || s.caller == Returned(true) ==>
        s.broadcast.Some? && (c.orderers >= 1 ==> SomeAccepted(s)))
    && (s.caller == Returned(true) ==> AllReported(c, s))
  }

  ghost predicate Inv(c: Setup, s: State) {
    PeersInv(c, s) && HandshakeInv(c, s) && ResultInv(c, s)
  }

  lemma InitInv(c: Setup)
    ensures Inv(c, Init(c))
  {
    NoneFinished(Init(c).peers);
  }

  lemma {:induction false} NoneFinished(peers: seq<Peer>)
    requires forall i | 0 <= i < |peers| :: !peers[i].pc.Finished?
    ensures FinishedCount(peers) == 0
  {
    if peers == [] {
    } else {
      NoneFinished(peers[..|peers| - 1]);
    }
  }

  lemma {:induction false} OneChanged(peers: seq<Peer>, i: nat, p: Peer)
    requires i < |peers|
    ensures FinishedCount(peers[i := p]) + (if peers[i].pc.Finished? then 1 else 0)
         == FinishedCount(peers) + if p.pc.Finished? then 1 else 0
  {
    var last := |peers| - 1;
    if i == last {
      assert peers[i := p][..last] == peers[..last];
    } else {
      OneChanged(peers[..last], i, p);
      assert peers[i := p][..last] == peers[..last][i := p];
    }
  }

  lemma {:induction false} CountAtMost(peers: seq<Peer>)
    ensures FinishedCount(peers) <= |peers|
    ensures FinishedCount(peers) == |peers| <==> forall i | 0 <= i < |peers| :: peers[i].pc.Finished?
  {
    if peers == [] {
    } else {
      CountAtMost(peers[..|peers| - 1]);
    }
  }

  /** Which peer a step changes, if any, and to what. */
  lemma PeerChanged(c: Setup, s: State, a: Action) returns (i: nat)
    requires Enabled(c, s, a)
    ensures var t := Do(c, s, a);
            || (t.peers == s.peers && t.codes == s.codes)
            || (&& i < |s.peers| && i < |t.peers| && t.peers == s.peers[i := t.peers[i]] && !s.peers[i].pc.Finished?
                && if t.peers[i].pc.Finished? then t.codes == s.codes + [t.peers[i].pc.code] else t.codes == s.codes)
  {
    match a {
      case Launch => i := s.sub.next;
      case OpenFails(peer) => i := peer;
      case SeekFails(peer) => i := peer;
      case SeekSent(peer) => i := peer;
      case CheckReady(peer) => i := peer;
      case CloseReady(peer) => i := peer;
      case Receive(peer, _) => i := peer;
      case Collect(peer) => i := peer;
      case _ => i := 0;
    }
  }

  lemma CodesOnly(s: State, t: State)
    requires CodesInv(s) && t.peers == s.peers && t.codes == s.codes
    ensures CodesInv(t)
  {
    forall k | 0 <= k < |t.codes| ensures exists i :: 0 <= i < |t.peers| && t.peers[i].pc == Finished(t.codes[k]) {
      var i :| 0 <= i < |s.peers| && s.peers[i].pc == Finished(s.codes[k]);
      assert t.peers[i].pc == Finished(t.codes[k]);
    }
  }

  lemma CodesStep(c: Setup, s: State, a: Action)
    requires CodesInv(s) && Enabled(c, s, a)
    ensures CodesInv(Do(c, s, a))
  {
    hide FinishedCount, Do, Enabled;
    var i := PeerChanged(c, s, a);
    var t := Do(c, s, a);
    if t.peers == s.peers && t.codes == s.codes {
      CodesOnly(s, t);
    } else {
      OneChanged(s.peers, i, t.peers[i]);
      assert |t.codes| == FinishedCount(t.peers);
      forall k | 0 <= k < |t.codes| ensures exists j :: 0 <= j < |t.peers| && t.peers[j].pc == Finished(t.codes[k]) {
        if k < |s.codes| {
          var j :| 0 <= j < |s.peers| && s.peers[j].pc == Finished(s.codes[k]);
          assert t.peers[j].pc == Finished(t.codes[k]);
        } else {
          assert t.peers[i].pc == Finished(t.codes[k]);
        }
      }
    }
  }

  /**
    A step of one peer: the peer stays in order, has not lost its seek, its stream grows, and nothing else about peers
    changes.
   */
  lemma PeerStep(c: Setup, s: State, a: Action, i: nat)
    requires Inv(c, s) && Enabled(c, s, a) && i < |s.peers|
    ensures |Do(c, s, a).peers| == |s.peers|
    ensures PeerOk(c, Do(c, s, a).peers[i])
    ensures s.peers[i].sought ==> Do(c, s, a).peers[i].sought
    ensures s.peers[i].stream <= Do(c, s, a).peers[i].stream
    ensures Do(c, s, a).peers[i].pc.Finished? ==> Do(c, s, a).peers[i].pc.code in Do(c, s, a).codes
  {
    assert PeerOk(c, s.peers[i]);
    if a.Receive? && a.peer == i {
      VerdictSnoc(s.peers[i].stream, a.event, c.txId);
    }
  }

  lemma ReportsGrows(stream: seq<Event>, more: seq<Event>, txId: string, code: int)
    requires stream <= more && Reports(stream, txId, code)
    ensures Reports(more, txId, code)
  {
    var i, j :|
      0 <= i < |stream| && stream[i].Block? && 0 <= j < |stream[i].txs| && stream[i].txs[j] == FilteredTx(txId, code);
    assert more[i] == stream[i];
  }

  /** What has happened stays so. */
  lemma FactsStay(c: Setup, s: State, a: Action)
    requires Inv(c, s) && Enabled(c, s, a)
    ensures SomeSought(s) ==> SomeSought(Do(c, s, a))
    ensures AllReported(c, s) ==> AllReported(c, Do(c, s, a))
  {
    var t := Do(c, s, a);
    forall i | 0 <= i < |s.peers|
      ensures |t.peers| == |s.peers| && (s.peers[i].sought ==> t.peers[i].sought)
              && s.peers[i].stream <= t.peers[i].stream
    {
      PeerStep(c, s, a, i);
    }
    if SomeSought(s) {
      var i :| 0 <= i < |s.peers| && s.peers[i].sought;
      assert t.peers[i].sought;
    }
    if AllReported(c, s) {
      forall i | 0 <= i < |t.peers| ensures Reports(t.peers[i].stream, c.txId, VALID) {
        ReportsGrows(s.peers[i].stream, t.peers[i].stream, c.txId, VALID);
      }
    }
  }

  /** The subscription concludes well only if every peer reported the transaction valid. */
  lemma GoodConclusion(c: Setup, s: State)
    requires Inv(c, s) && Enabled(c, s, Conclude) && AllValid(s.codes, |s.peers|)
    ensures AllReported(c, s)
  {
    forall i | 0 <= i < |s.peers| ensures Reports(s.peers[i].stream, c.txId, VALID) {
      assert s.peers[i].pc.Finished? && PeerOk(c, s.peers[i]);
      assert s.peers[i].pc.code in s.codes;
      VerdictIsReported(s.peers[i].stream, c.txId);
    }
  }

  lemma BroadcastStays(b: B.State, a: B.Action)
    requires B.Inv(b) && B.Enabled(b, a)
    ensures B.Inv(B.Do(b, a)) && B.Do(b, a).n == b.n
    ensures (exists j :: j in b.sent && b.sent[j] == B.Success) ==>
              exists j :: j in B.Do(b, a).sent && B.Do(b, a).sent[j] == B.Success
  {
    B.StepInv(b, a);
    if j :| j in b.sent && b.sent[j] == B.Success {
      assert B.Do(b, a).sent[j] == B.Success;
    }
  }

  lemma PeersStep(c: Setup, s: State, a: Action)
    requires Inv(c, s) && Enabled(c, s, a)
    ensures PeersInv(c, Do(c, s, a))
  {
    hide Verdict, PeerOk, HandshakeInv, ResultInv, CodesInv, B.Do, B.Enabled;
    CodesStep(c, s, a);
    forall i | 0 <= i < |s.peers|
      ensures |Do(c, s, a).peers| == |s.peers| && PeerOk(c, Do(c, s, a).peers[i])
      ensures Do(c, s, a).peers[i].pc.Finished? ==> Do(c, s, a).peers[i].pc.code in Do(c, s, a).codes
    {
      PeerStep(c, s, a, i);
    }
  }

  lemma HandshakeStep(c: Setup, s: State, a: Action)
    requires Inv(c, s) && Enabled(c, s, a)
    ensures HandshakeInv(c, Do(c, s, a))
  {
    hide AllReported, SomeSought, PeersInv, ResultInv, B.Inv, B.Do, B.Enabled, B.Decide;
    FactsStay(c, s, a);
    match a {
      case CloseReady(i) => CloserSought(c, s, i);
      case SeeReady(targets) => B.InitInv(|targets|, QuorumFor(c));
      case OfBroadcast(b) => BroadcastStays(s.broadcast.value, b);
      case _ =>
    }
  }

  lemma ResultStep(c: Setup, s: State, a: Action)
    requires Inv(c, s) && Enabled(c, s, a)
    ensures ResultInv(c, Do(c, s, a))
  {
    hide AllReported, SomeSought, PeersInv, B.Inv, B.Do, B.Enabled, B.Decide;
    FactsStay(c, s, a);
    match a {
      case Conclude =>
        if AllValid(s.codes, |s.peers|) {
          GoodConclusion(c, s);
        }
      case OfBroadcast(b) => BroadcastStays(s.broadcast.value, b);
      case BroadcastReturns =>
        if s.broadcast.value.n >= 1 {
          B.ResultOfState(s.broadcast.value);
        }
      case _ =>
    }
  }

  lemma StepInv(c: Setup, s: State, a: Action)
    requires Inv(c, s) && Enabled(c, s, a)
    ensures Inv(c, Do(c, s, a))
  {
    hide PeersInv, HandshakeInv, ResultInv, Do, Enabled;
    PeersStep(c, s, a);
    HandshakeStep(c, s, a);
    ResultStep(c, s, a);
  }

  lemma CloserSought(c: Setup, s: State, i: nat)
    requires Inv(c, s) && Enabled(c, s, CloseReady(i))
    ensures SomeSought(Do(c, s, CloseReady(i)))
  {
    assert PeerOk(c, s.peers[i]);
    assert Do(c, s, CloseReady(i)).peers[i].sought;
  }

  // ---- Runs ----

  ghost predicate IsRun(c: Setup, states: seq<State>, actions: seq<Action>) {
    && |states| == |actions| + 1
    && states[0] == Init(c)
    && forall k | 0 <= k < |actions| ::
       Enabled(c, states[k], actions[k]) && states[k + 1] == Do(c, states[k], actions[k])
  }

  lemma {:induction false} RunInv(c: Setup, states: seq<State>, actions: seq<Action>, k: nat)
    requires IsRun(c, states, actions) && k < |states|
    ensures Inv(c, states[k])
  {
    if k == 0 {
      InitInv(c);
    } else {
      RunInv(c, states, actions, k - 1);
      StepInv(c, states[k - 1], actions[k - 1]);
    }
  }

  /** The envelope goes to orderers only after the stream of at least one peer has sent its seek request. */
  lemma SubscribedBeforeBroadcast(c: Setup, states: seq<State>, actions: seq<Action>, k: nat)
    requires IsRun(c, states, actions) && k < |actions|
    requires actions[k].SeeReady? || actions[k].OfBroadcast?
    ensures SomeSought(states[k])
  {
    RunInv(c, states, actions, k);
  }

  // ---- The answer ----

  /**
    The envelope goes to one orderer, any but the last, for Raft; to all of them, with a BFT quorum, for BFT; to none
    otherwise.
   */
  lemma BroadcastStarts(c: Setup, s: State, targets: seq<nat>)
    requires Enabled(c, s, SeeReady(targets))
    ensures Do(c, s, SeeReady(targets)).broadcast.Some?
    ensures var b := Do(c, s, SeeReady(targets)).broadcast.value;
            && b.n == |targets| && b.sent == map[] && Do(c, s, SeeReady(targets)).caller == Broadcasting
            && (c.consensus.Raft? ==> |targets| == 1 && targets[0] < c.orderers - 1 && b.quorum == 1)
            && (c.consensus.Bft? ==>
                  && |targets| == c.orderers && (forall i | 0 <= i < c.orderers :: targets[i] == i)
                  && (c.orderers >= 1 ==>
                        var f := (c.orderers - 1) / 3;
                        && 2 * b.quorum >= c.orderers + f + 1
                        && forall q: int | 2 * q >= c.orderers + f + 1 :: b.quorum <= q))
            && (c.consensus.Raft? || c.consensus.Bft?)
  {
    if c.consensus.Bft? && c.orderers >= 1 {
      QuorumIsLeast(c.orderers);
    }
  }

  /** A broadcast that returns leads on iff its result is nil. */
  lemma BroadcastAnswer(c: Setup, states: seq<State>, actions: seq<Action>, k: nat)
    requires IsRun(c, states, actions) && k < |actions| && actions[k].BroadcastReturns?
    ensures states[k].broadcast.Some? && states[k].broadcast.value.caller.Returned?
    ensures states[k + 1].caller == WaitResult <==> states[k].broadcast.value.caller == B.Returned(B.Success)
    ensures states[k + 1].caller != WaitResult ==> states[k + 1].caller == Returned(false)
  {
  }

  /** Once all peers have finished, neither they nor their codes change, and the conclusion is final. */
  lemma ConclusionStays(c: Setup, s: State, a: Action)
    requires Enabled(c, s, a) && s.sub.Concluded? && forall i | 0 <= i < |s.peers| :: s.peers[i].pc.Finished?
    ensures Do(c, s, a).peers == s.peers && Do(c, s, a).codes == s.codes && Do(c, s, a).sub == s.sub
  {
  }

  lemma ConcludeStep(c: Setup, s: State)
    requires Enabled(c, s, Conclude)
    ensures Do(c, s, Conclude).peers == s.peers && Do(c, s, Conclude).codes == s.codes
    ensures Do(c, s, Conclude).sub.Concluded? && forall i | 0 <= i < |s.peers| :: s.peers[i].pc.Finished?
  {
  }

  lemma {:induction false} AfterConclude(c: Setup, states: seq<State>, actions: seq<Action>, j: nat, k: nat)
    requires IsRun(c, states, actions) && j < k < |states| && actions[j].Conclude?
    ensures states[k].peers == states[j].peers && states[k].codes == states[j].codes
    ensures states[k].sub == states[j + 1].sub
    ensures forall i | 0 <= i < |states[k].peers| :: states[k].peers[i].pc.Finished?
  {
    hide Do, Enabled;
    assert states[j + 1] == Do(c, states[j], actions[j]);
    ConcludeStep(c, states[j]);
    if k == j + 1 {
    } else {
      AfterConclude(c, states, actions, j, k - 1);
      assert states[k] == Do(c, states[k - 1], actions[k - 1]);
      ConclusionStays(c, states[k - 1], actions[k - 1]);
    }
  }

  /** When all peers have finished, the codes are one per peer and VALID iff each stream's verdict is. */
  lemma CodesAreVerdicts(c: Setup, s: State)
    requires PeersInv(c, s) && forall i | 0 <= i < |s.peers| :: s.peers[i].pc.Finished?
    ensures |s.codes| == c.peers
    ensures (forall k | 0 <= k < |s.codes| :: s.codes[k] == 0)
       <==> (forall i | 0 <= i < |s.peers| :: Verdict(s.peers[i].stream, c.txId) == Some(0))
  {
    hide Verdict;
    CountAtMost(s.peers);
    if forall k | 0 <= k < |s.codes| :: s.codes[k] == 0 {
      forall i | 0 <= i < |s.peers| ensures Verdict(s.peers[i].stream, c.txId) == Some(0) {
        assert PeerOk(c, s.peers[i]) && s.peers[i].pc.code in s.codes;
      }
    }
    if forall i | 0 <= i < |s.peers| :: Verdict(s.peers[i].stream, c.txId) == Some(0) {
      forall k | 0 <= k < |s.codes| ensures s.codes[k] == 0 {
        var i :| 0 <= i < |s.peers| && s.peers[i].pc == Finished(s.codes[k]);
        assert PeerOk(c, s.peers[i]);
        assert Verdict([], c.txId) == None by {
          NothingSaid(c.txId);
        }
      }
    }
  }

  lemma NothingSaid(txId: string)
    ensures Verdict([], txId) == None
  {
  }

  /**
    The answer of every run: when the caller takes the result of a subscription that has concluded, it is nil iff there
    is one code per peer and all are VALID; that is, iff the verdict of every peer's stream is VALID.
   */
  lemma ResultAnswer(c: Setup, states: seq<State>, actions: seq<Action>, j: nat, k: nat)
    requires IsRun(c, states, actions) && j < k < |actions| && actions[j].Conclude? && actions[k].TakeResult?
    ensures states[k + 1].caller == Returned(true) <==>
            |states[k].codes| == c.peers && forall n | 0 <= n < |states[k].codes| :: states[k].codes[n] == 0
    ensures states[k + 1].caller == Returned(true) <==>
            forall i | 0 <= i < |states[k].peers| :: Verdict(states[k].peers[i].stream, c.txId) == Some(0)
    ensures states[k + 1].caller == Returned(true) || states[k + 1].caller == Returned(false)
  {
    hide Verdict, Enabled, PeersInv, HandshakeInv, ResultInv;
    RunInv(c, states, actions, j);
    RunInv(c, states, actions, k);
    AfterConclude(c, states, actions, j, k);
    assert |states[j].peers| == c.peers by {
      PeersAreThere(c, states[j]);
    }
    assert states[j + 1] == Do(c, states[j], actions[j]) && states[k + 1] == Do(c, states[k], actions[k]);
    CodesAreVerdicts(c, states[k]);
  }

  lemma PeersAreThere(c: Setup, s: State)
    requires PeersInv(c, s)
    ensures |s.peers| == c.peers
  {
  }

  /**
    Who answers: a nil answer comes from the subscription; an error from there, from the broadcast, or from a
    cancellation.
   */
  lemma AnswerComesFrom(c: Setup, states: seq<State>, actions: seq<Action>, k: nat)
    requires IsRun(c, states, actions) && k < |actions|
    requires !states[k].caller.Returned? && states[k + 1].caller.Returned?
    ensures actions[k].TakeResult? || actions[k].BroadcastReturns? || actions[k].NoOrderers? || actions[k].Cancel?
    ensures actions[k].TakeResult? ==> states[k].sub.Concluded? && states[k + 1].caller.ok == states[k].sub.ok
    ensures !actions[k].TakeResult? ==> !states[k + 1].caller.ok
  {
  }

  /**
    A nil result: every local peer reported the transaction valid in a block, and some orderer accepted the envelope.
   */
  lemma SuccessIsConfirmed(c: Setup, states: seq<State>, actions: seq<Action>, k: nat)
    requires IsRun(c, states, actions) && k < |states| && c.orderers >= 1
    requires states[k].caller == Returned(true)
    ensures |states[k].peers| == c.peers >= 1
    ensures forall i: nat | i < c.peers :: Reports(states[k].peers[i].stream, c.txId, VALID)
    ensures SomeAccepted(states[k])
  {
    RunInv(c, states, actions, k);
  }

  // ---- A run that succeeds ----

  ghost predicate Reachable(c: Setup, s: State) {
    exists states, actions :: IsRun(c, states, actions) && states[|actions|] == s
  }

  lemma OneStep(c: Setup, s: State, a: Action)
    requires Reachable(c, s) && Enabled(c, s, a)
    ensures Reachable(c, Do(c, s, a))
  {
    var states, actions :| IsRun(c, states, actions) && states[|actions|] == s;
    assert IsRun(c, states + [Do(c, s, a)], actions + [a]);
  }

  /** The only peer has subscribed, and the caller has been told so. */
  lemma SubscriptionReachable(c: Setup)
    requires c.peers == 1
    ensures Reachable(c, State([Peer(Pc.Receiving, true, [])], true, false, Collecting, [], WaitReady, None))
  {
    hide Reachable, Enabled, Do;
    var s0 := Init(c);
    assert Reachable(c, s0) by {
      StartReachable(c);
    }
    var s1 := State([Peer(Opening, false, [])], false, false, Collecting, [], WaitReady, None);
    assert Enabled(c, s0, Launch) && Do(c, s0, Launch) == s1 by {
      FirstSteps(c);
    }
    OneStep(c, s0, Launch);
    var s2 := s1.(peers := [Peer(CheckingReady, true, [])]);
    assert Enabled(c, s1, SeekSent(0)) && Do(c, s1, SeekSent(0)) == s2 by {
      FirstSteps(c);
    }
    OneStep(c, s1, SeekSent(0));
    var s3 := s1.(peers := [Peer(ClosingReady, true, [])]);
    assert Enabled(c, s2, CheckReady(0)) && Do(c, s2, CheckReady(0)) == s3 by {
      FirstSteps(c);
    }
    OneStep(c, s2, CheckReady(0));
    assert Enabled(c, s3, CloseReady(0)) by {
      FirstSteps(c);
    }
    assert Do(c, s3, CloseReady(0)) == s1.(peers := [Peer(Pc.Receiving, true, [])], ready := true) by {
      FirstSteps(c);
    }
    OneStep(c, s3, CloseReady(0));
  }

  lemma StartReachable(c: Setup)
    ensures Reachable(c, Init(c))
  {
    assert IsRun(c, [Init(c)], []);
  }

  lemma FirstSteps(c: Setup)
    requires c.peers == 1
    ensures var s0 := Init(c);
            var s1 := State([Peer(Opening, false, [])], false, false, Collecting, [], WaitReady, None);
            var s2 := s1.(peers := [Peer(CheckingReady, true, [])]);
            var s3 := s1.(peers := [Peer(ClosingReady, true, [])]);
            && Enabled(c, s0, Launch) && Do(c, s0, Launch) == s1
            && Enabled(c, s1, SeekSent(0)) && Do(c, s1, SeekSent(0)) == s2
            && Enabled(c, s2, CheckReady(0)) && Do(c, s2, CheckReady(0)) == s3
            && Enabled(c, s3, CloseReady(0))
            && Do(c, s3, CloseReady(0)) == s1.(peers := [Peer(Pc.Receiving, true, [])], ready := true)
  {
  }

  /** A broadcast to one orderer that accepts. */
  lemma OneAccepts(quorum: int)
    requires quorum <= 1
    ensures var b := B.Init(1, quorum); var send := B.Send(0, B.Success);
            && B.Enabled(b, send) && B.Enabled(B.Do(b, send), B.Receive)
            && B.Do(B.Do(b, send), B.Receive).caller == B.Returned(B.Success)
  {
    var b := B.Init(1, quorum);
    var taken := [B.Success];
    assert taken[..0] == [];
    assert B.Successes(taken) == 1;
    assert B.Do(B.Do(b, B.Send(0, B.Success)), B.Receive).taken == taken;
  }

  /**
    The answer can be nil: with one peer that reports the transaction valid and an orderer that accepts the envelope.
   */
  lemma SuccessIsPossible(c: Setup)
    requires c.peers == 1 && c.consensus == Raft && c.orderers >= 2
    ensures exists s :: Reachable(c, s) && s.caller == Returned(true)
  {
    hide Reachable, B.Init, B.Do, B.Enabled, B.Decide;
    SubscriptionReachable(c);
    OneAccepts(1);
    var s0 := State([Peer(Pc.Receiving, true, [])], true, false, Collecting, [], WaitReady, None);
    OneStep(c, s0, SeeReady([0]));
    var s1 := Do(c, s0, SeeReady([0]));
    OneStep(c, s1, OfBroadcast(B.Send(0, B.Success)));
    var s2 := Do(c, s1, OfBroadcast(B.Send(0, B.Success)));
    OneStep(c, s2, OfBroadcast(B.Receive));
    var s3 := Do(c, s2, OfBroadcast(B.Receive));
    OneStep(c, s3, BroadcastReturns);
    var s4 := Do(c, s3, BroadcastReturns);
    assert s4.peers == s0.peers && s4.sub == Collecting && s4.codes == [] && s4.caller == WaitResult && !s4.panicked;
    PeerReports(c, s4);
  }

  lemma PeerReports(c: Setup, s: State)
    requires Reachable(c, s) && s.peers == [Peer(Pc.Receiving, true, [])]
    requires s.sub == Collecting && s.codes == [] && s.caller == WaitResult && !s.panicked
    ensures exists t :: Reachable(c, t) && t.caller == Returned(true)
  {
    hide Reachable;
    var report := Receive(0, Block([FilteredTx(c.txId, VALID)]));
    OneStep(c, s, report);
    var s1 := Do(c, s, report);
    assert s1.peers[0].pc == HasCode(VALID);
    OneStep(c, s1, Collect(0));
    var s2 := Do(c, s1, Collect(0));
    OneStep(c, s2, Conclude);
    var s3 := Do(c, s2, Conclude);
    OneStep(c, s3, TakeResult);
    assert Do(c, s3, TakeResult).caller == Returned(true);
  }
}

/**
  Lifecycle calls that overlap. Each of the five operations of a call (query the committed definitions,
  query the own approval, approve, check the readiness, commit) is a step of its own, and any number of
  calls by any number of organisations may be under way at once, or be abandoned anywhere.
 */
module LifecycleRuns {
  import opened Outcomes
  import opened Lifecycle

  // ---- Steps ----

  /** The operation that a call has to do next, with what it knows. */
  datatype Stage =
    | Queried(seen: Option<Stored>)   // has seen the committed definition, will query its approval
    | Approving(sequence: int)
    | Checking(sequence: int)
    | Committing(sequence: int)

  datatype Ongoing = Ongoing(org: string, def: Definition, stage: Stage)

  datatype World = World(chain: Chain, calls: map<nat, Ongoing>)

  datatype Event =
    | Begin(id: nat, org: string, def: Definition)   // queries the committed definitions
    | QueryApproved(id: nat)
    | StoreApproval(id: nat)
    | CheckReadiness(id: nat)
    | InstallDefinition(id: nat)
    | Abandon(id: nat)

  predicate Enabled(w: World, e: Event) {
    match e
    case Begin(id, org, _) => id !in w.calls && org in w.chain.orgs
    case QueryApproved(id) => id in w.calls && w.calls[id].stage.Queried?
    case StoreApproval(id) => id in w.calls && w.calls[id].stage.Approving?
    case CheckReadiness(id) => id in w.calls && w.calls[id].stage.Checking?
    case InstallDefinition(id) => id in w.calls && w.calls[id].stage.Committing?
    case Abandon(id) => id in w.calls
  }

  function Goto(w: World, id: nat, stage: Stage): World
    requires id in w.calls
  {
    w.(calls := w.calls[id := w.calls[id].(stage := stage)])
  }

  function Finish(w: World, id: nat): World {
    w.(calls := w.calls - {id})
  }

  function Do(w: World, e: Event): World
    requires Enabled(w, e)
  {
    var s := w.chain;
    match e
    case Begin(id, org, def) =>
      if Found(s.committed, def) then w else w.(calls := w.calls[id := Ongoing(org, def, Queried(s.committed))])
    case QueryApproved(id) =>
      var call := w.calls[id];
      var last := LastApproved(s, call.org);
      var sequence := Sequence(call.stage.seen, last);
      Goto(w, id, if IsApproved(last, call.def) then Checking(sequence) else Approving(sequence))
    case StoreApproval(id) =>
      var call := w.calls[id];
      Goto(w, id, Checking(call.stage.sequence)).(chain := Store(s, call.org, Target(call)))
    case CheckReadiness(id) =>
      var call := w.calls[id];
      if Ready(s, call.stage.sequence, call.def) then Goto(w, id, Committing(call.stage.sequence)) else Finish(w, id)
    case InstallDefinition(id) =>
      var call := w.calls[id];
      Finish(w, id).(chain := Install(s, call.stage.sequence, call.def))
    case Abandon(id) => Finish(w, id)
  }

  function Store(s: Chain, org: string, stored: Stored): Chain {
    s.(approvals := s.approvals[org := stored])
  }

  /** What the call wants to see approved and committed. */
  function Target(call: Ongoing): Stored
    requires !call.stage.Queried?
  {
    Stored(call.stage.sequence, call.def)
  }

  function SequenceOf(seen: Option<Stored>): int {
    if seen.Some? then seen.value.sequence else 0
  }

  predicate Approved(s: Chain, org: string, stored: Stored) {
    org in s.approvals && s.approvals[org] == stored
  }

  // ---- Which steps keep order ----

  /** The step keeps the invariant, and if it commits anything new, that is at the next sequence and approved by all. */
  ghost predicate Orderly(s: Chain, t: Chain) {
    && Inv(t)
    && (t.committed != s.committed ==>
          && t.committed.Some? && CommittedSequence(t) == CommittedSequence(s) + 1
          && forall o | o in s.orgs :: Approved(s, o, t.committed.value))
  }

  /**
    An approval is stored while its sequence is still the one after the committed one, and a definition is
    committed while the readiness check would still succeed; or that very definition is already committed.
   */
  predicate Guard(w: World, e: Event)
    requires Enabled(w, e)
  {
    match e
    case StoreApproval(id) =>
      w.calls[id].stage.sequence == CommittedSequence(w.chain) + 1 || w.chain.committed == Some(Target(w.calls[id]))
    case InstallDefinition(id) =>
      Ready(w.chain, w.calls[id].stage.sequence, w.calls[id].def) || w.chain.committed == Some(Target(w.calls[id]))
    case _ => true
  }

  /** What a call has seen was committed once, and is so still if the sequence has not moved on. */
  ghost predicate CallOk(s: Chain, call: Ongoing) {
    && call.org in s.orgs
    && (call.stage.Queried? ==>
          && !Found(call.stage.seen, call.def)
          && (call.stage.seen.Some? ==> SequenceOf(call.stage.seen) >= 1)
          && SequenceOf(call.stage.seen) <= CommittedSequence(s)
          && (SequenceOf(call.stage.seen) == CommittedSequence(s) ==> call.stage.seen == s.committed))
  }

  ghost predicate WorldInv(w: World) {
    Inv(w.chain) && forall id | id in w.calls :: CallOk(w.chain, w.calls[id])
  }

  lemma StoreOrderlyIff(s: Chain, org: string, stored: Stored)
    requires Inv(s) && org in s.orgs
    ensures Orderly(s, Store(s, org, stored))
       <==> stored.sequence == CommittedSequence(s) + 1 || s.committed == Some(stored)
  {
    var t := Store(s, org, stored);
    assert LastApproved(t, org) == stored;
    assert forall o | o in s.orgs && o != org :: LastApproved(t, o) == LastApproved(s, o);
  }

  lemma InstallOrderlyIff(s: Chain, org: string, sequence: int, def: Definition)
    requires Inv(s) && org in s.orgs
    ensures Orderly(s, Install(s, sequence, def))
       <==> Ready(s, sequence, def) || s.committed == Some(Stored(sequence, def))
  {
    var t := Install(s, sequence, def);
    if Ready(s, sequence, def) {
      CommitRaisesByOne(s, org, sequence, def);
      assert LastApproved(s, org) == Stored(sequence, def);
    }
  }

  /** A step keeps order exactly when its guard holds. */
  lemma StepOrderlyIff(w: World, e: Event)
    requires WorldInv(w) && Enabled(w, e)
    ensures Orderly(w.chain, Do(w, e).chain) <==> Guard(w, e)
  {
    hide Inv, Ready;
    match e {
      case StoreApproval(id) => StoreOrderlyIff(w.chain, w.calls[id].org, Target(w.calls[id]));
      case InstallDefinition(id) => InstallOrderlyIff(w.chain, w.calls[id].org, w.calls[id].stage.sequence,
                                                      w.calls[id].def);
      case _ =>
    }
  }

  lemma StepInv(w: World, e: Event)
    requires WorldInv(w) && Enabled(w, e) && Guard(w, e)
    ensures WorldInv(Do(w, e))
    ensures Do(w, e).chain.orgs == w.chain.orgs
  {
    StepOrderlyIff(w, e);
    hide Guard, Ready;
  }

  // ---- Runs ----

  ghost predicate IsSegment(worlds: seq<World>, events: seq<Event>) {
    && |worlds| == |events| + 1
    && forall k | 0 <= k < |events| :: Enabled(worlds[k], events[k]) && worlds[k + 1] == Do(worlds[k], events[k])
  }

  function Start(orgs: set<string>): World {
    World(Chain(orgs, None, map[]), map[])
  }

  ghost predicate IsRun(worlds: seq<World>, events: seq<Event>, orgs: set<string>) {
    IsSegment(worlds, events) && worlds[0] == Start(orgs)
  }

  ghost predicate IsGuardedRun(worlds: seq<World>, events: seq<Event>, orgs: set<string>) {
    IsRun(worlds, events, orgs) && forall k | 0 <= k < |events| :: Guard(worlds[k], events[k])
  }

  lemma {:induction false} RunInv(worlds: seq<World>, events: seq<Event>, orgs: set<string>, k: nat)
    requires IsRun(worlds, events, orgs) && k < |worlds|
    requires forall j | 0 <= j < k :: Guard(worlds[j], events[j])
    ensures WorldInv(worlds[k]) && worlds[k].chain.orgs == orgs
  {
    if k == 0 {
    } else {
      RunInv(worlds, events, orgs, k - 1);
      StepInv(worlds[k - 1], events[k - 1]);
    }
  }

  /**
    Over every run, in any interleaving of single operations: every step keeps order exactly when every step is guarded.
   */
  lemma RunGuardedIff(worlds: seq<World>, events: seq<Event>, orgs: set<string>)
    requires IsRun(worlds, events, orgs)
    ensures (forall k | 0 <= k < |events| :: Orderly(worlds[k].chain, worlds[k + 1].chain))
       <==> IsGuardedRun(worlds, events, orgs)
  {
    hide Orderly, Guard;
    forall k | 0 <= k <= |events| ensures GuardedIffOrderly(worlds, events, k) {
      OrderlyPrefixIff(worlds, events, orgs, k);
    }
    assert GuardedIffOrderly(worlds, events, |events|);
  }

  ghost predicate GuardedIffOrderly(worlds: seq<World>, events: seq<Event>, k: nat)
    requires IsSegment(worlds, events) && k <= |events|
  {
    (forall j | 0 <= j < k :: Orderly(worlds[j].chain, worlds[j + 1].chain))
      <==> forall j | 0 <= j < k :: Guard(worlds[j], events[j])
  }

  lemma {:induction false} OrderlyPrefixIff(worlds: seq<World>, events: seq<Event>, orgs: set<string>, k: nat)
    requires IsRun(worlds, events, orgs) && k <= |events|
    ensures GuardedIffOrderly(worlds, events, k)
  {
    hide Orderly, Guard, Enabled, Do, WorldInv;
    if k == 0 {
    } else {
      OrderlyPrefixIff(worlds, events, orgs, k - 1);
      if forall j | 0 <= j < k - 1 :: Guard(worlds[j], events[j]) {
        RunInv(worlds, events, orgs, k - 1);
        StepOrderlyIff(worlds[k - 1], events[k - 1]);
        assert worlds[k] == Do(worlds[k - 1], events[k - 1]);
        assert Orderly(worlds[k - 1].chain, worlds[k - 1 + 1].chain) <==> Guard(worlds[k - 1], events[k - 1]);
      } else {
        var j :| 0 <= j < k - 1 && !Guard(worlds[j], events[j]);
        var i :| 0 <= i < k - 1 && !Orderly(worlds[i].chain, worlds[i + 1].chain);
      }
    }
  }

  // ---- Calls that are not interrupted ----

  /**
    The two queries and the approval of a call follow each other directly, and so do its readiness check and its commit.
   */
  ghost predicate Uninterrupted(events: seq<Event>, k: nat)
    requires k < |events|
  {
    match events[k]
    case QueryApproved(id) => k >= 1 && events[k - 1].Begin? && events[k - 1].id == id
    case StoreApproval(id) => k >= 2 && events[k - 1] == QueryApproved(id) && events[k - 2].Begin?
      && events[k - 2].id == id
    case InstallDefinition(id) => k >= 1 && events[k - 1] == CheckReadiness(id)
    case _ => true
  }

  /** Two atomic phases are enough: then every step is guarded, whatever else is interleaved and wherever calls fail. */
  lemma {:induction false} AtomicPhasesAreGuarded(worlds: seq<World>, events: seq<Event>, orgs: set<string>, k: nat)
    requires IsRun(worlds, events, orgs) && k <= |events|
    requires forall j | 0 <= j < |events| :: Uninterrupted(events, j)
    ensures forall j | 0 <= j < k :: Guard(worlds[j], events[j])
  {
    if k == 0 {
    } else {
      AtomicPhasesAreGuarded(worlds, events, orgs, k - 1);
      var j, e := k - 1, events[k - 1];
      assert Uninterrupted(events, j);
      if e.StoreApproval? {
        RunInv(worlds, events, orgs, j - 2);
        assert worlds[j - 1] == Do(worlds[j - 2], events[j - 2]) && worlds[j] == Do(worlds[j - 1], events[j - 1]);
        ApprovalFollowsQueries(worlds[j - 2], events[j - 2], e.id);
      } else if e.InstallDefinition? {
        assert worlds[j] == Do(worlds[j - 1], events[j - 1]);
      }
    }
  }

  lemma ApprovalFollowsQueries(w: World, e: Event, id: nat)
    requires WorldInv(w) && e.Begin? && e.id == id && Enabled(w, e)
    requires Enabled(Do(w, e), QueryApproved(id))
    requires Enabled(Do(Do(w, e), QueryApproved(id)), StoreApproval(id))
    ensures Guard(Do(Do(w, e), QueryApproved(id)), StoreApproval(id))
  {
    SequenceIsNext(w.chain, e.org);
  }

  // ---- Interrupted calls, exactly ----

  /** Nothing happens to a call while others move. */
  lemma {:induction false} CallStays(worlds: seq<World>, events: seq<Event>, i: nat, k: nat, id: nat)
    requires IsSegment(worlds, events) && i <= k < |worlds|
    requires id in worlds[i].calls && forall m | i <= m < k :: events[m].id != id
    ensures id in worlds[k].calls && worlds[k].calls[id] == worlds[i].calls[id]
  {
    if i == k {
    } else {
      CallStays(worlds, events, i, k - 1, id);
      assert worlds[k] == Do(worlds[k - 1], events[k - 1]);
    }
  }

  /** What the organisation approved last in the steps from i up to k, if anything. */
  ghost function LastStored(worlds: seq<World>, events: seq<Event>, i: nat, k: nat, org: string): Option<Stored>
    requires IsSegment(worlds, events) && i <= k <= |events|
  {
    if i == k then None
    else if events[k - 1].StoreApproval? && worlds[k - 1].calls[events[k - 1].id].org == org then
      Some(Target(worlds[k - 1].calls[events[k - 1].id]))
    else LastStored(worlds, events, i, k - 1, org)
  }

  lemma {:induction false} ApprovalIsLastStored(worlds: seq<World>, events: seq<Event>, i: nat, k: nat, org: string)
    requires IsSegment(worlds, events) && i <= k <= |events|
    ensures var stored := LastStored(worlds, events, i, k, org);
            if stored.Some? then Approved(worlds[k].chain, org, stored.value)
            else forall x :: Approved(worlds[k].chain, org, x) <==> Approved(worlds[i].chain, org, x)
    ensures worlds[k].chain.orgs == worlds[i].chain.orgs
  {
    if i == k {
    } else {
      ApprovalIsLastStored(worlds, events, i, k - 1, org);
      assert worlds[k] == Do(worlds[k - 1], events[k - 1]);
    }
  }

  /**
    The sequence computed from an earlier look at the committed definitions is the next one, unless both have fallen
    behind.
   */
  lemma ComputedSequence(s: Chain, call: Ongoing)
    requires Inv(s) && CallOk(s, call) && call.stage.Queried?
    ensures var c, seen, last := CommittedSequence(s), call.stage.seen, LastApproved(s, call.org);
            Sequence(seen, last) == if SequenceOf(seen) == c || last.sequence == c + 1 then c + 1 else c
  {
    if SequenceOf(call.stage.seen) == CommittedSequence(s) {
      SequenceIsNext(s, call.org);
    }
  }

  /**
    Nothing was committed since the query of the own approval, and either nothing was committed between the two
    queries or the own approval was ahead already; or the very definition to be approved is committed by now.
   */
  ghost predicate ApprovalUndisturbed(worlds: seq<World>, events: seq<Event>, i: nat, k: nat, id: nat)
    requires IsSegment(worlds, events) && i < k < |events|
    requires events[i] == QueryApproved(id) && events[k] == StoreApproval(id)
  {
    var call, c := worlds[i].calls[id], CommittedSequence(worlds[i].chain);
    || (&& CommittedSequence(worlds[k].chain) == c
        && (SequenceOf(call.stage.seen) == c || LastApproved(worlds[i].chain, call.org).sequence == c + 1))
    || worlds[k].chain.committed == Some(Target(worlds[k].calls[id]))
  }

  /**
    No organisation has last approved anything else since the readiness check; or the very definition is committed by
    now.
   */
  ghost predicate CommitUndisturbed(worlds: seq<World>, events: seq<Event>, i: nat, k: nat, id: nat)
    requires IsSegment(worlds, events) && i < k < |events|
    requires events[i] == CheckReadiness(id) && events[k] == InstallDefinition(id)
  {
    var target := Target(worlds[i].calls[id]);
    || (forall o | o in worlds[i].chain.orgs :: LastStored(worlds, events, i, k, o) in {None, Some(target)})
    || worlds[k].chain.committed == Some(target)
  }

  /** An approval is stored in order exactly when it is undisturbed. */
  lemma LateApprovalIff(worlds: seq<World>, events: seq<Event>, orgs: set<string>, i: nat, k: nat, id: nat)
    requires IsRun(worlds, events, orgs) && i < k < |events|
    requires forall j | 0 <= j < k :: Guard(worlds[j], events[j])
    requires events[i] == QueryApproved(id) && events[k] == StoreApproval(id)
    requires forall m | i < m < k :: events[m].id != id
    ensures Orderly(worlds[k].chain, worlds[k + 1].chain) <==> ApprovalUndisturbed(worlds, events, i, k, id)
  {
    hide Orderly, Inv;
    RunInv(worlds, events, orgs, i);
    RunInv(worlds, events, orgs, k);
    SequenceGrows(worlds, events, orgs, i, k);
    StepOrderlyIff(worlds[k], events[k]);
    ComputedSequence(worlds[i].chain, worlds[i].calls[id]);
    assert worlds[i + 1] == Do(worlds[i], events[i]);
    StageAfterQuery(worlds[i], id);
    CallStays(worlds, events, i + 1, k, id);
  }

  lemma StageAfterQuery(w: World, id: nat)
    requires Enabled(w, QueryApproved(id))
    ensures var v, call, last := Do(w, QueryApproved(id)), w.calls[id], LastApproved(w.chain, w.calls[id].org);
            && v.chain == w.chain && id in v.calls
            && v.calls[id].org == call.org && v.calls[id].def == call.def
            && v.calls[id].stage
            == (if IsApproved(last, call.def) then Checking(Sequence(call.stage.seen, last))
                else Approving(Sequence(call.stage.seen, last)))
  {
  }

  lemma {:induction false} SequenceGrows(worlds: seq<World>, events: seq<Event>, orgs: set<string>, i: nat, k: nat)
    requires IsRun(worlds, events, orgs) && i <= k < |worlds|
    requires forall j | 0 <= j < k :: Guard(worlds[j], events[j])
    ensures CommittedSequence(worlds[i].chain) <= CommittedSequence(worlds[k].chain)
  {
    if i == k {
    } else {
      SequenceGrows(worlds, events, orgs, i, k - 1);
      RunInv(worlds, events, orgs, k - 1);
      StepOrderlyIff(worlds[k - 1], events[k - 1]);
      hide Inv, Guard;
    }
  }

  /** A commit that comes later than its readiness check is in order exactly when it is undisturbed. */
  lemma LateCommitIff(worlds: seq<World>, events: seq<Event>, orgs: set<string>, i: nat, k: nat, id: nat)
    requires IsRun(worlds, events, orgs) && i < k < |events|
    requires forall j | 0 <= j < k :: Guard(worlds[j], events[j])
    requires events[i] == CheckReadiness(id) && events[k] == InstallDefinition(id)
    requires forall m | i < m < k :: events[m].id != id
    ensures Orderly(worlds[k].chain, worlds[k + 1].chain) <==> CommitUndisturbed(worlds, events, i, k, id)
  {
    hide Orderly, Inv, LastStored;
    RunInv(worlds, events, orgs, i);
    RunInv(worlds, events, orgs, k);
    StepOrderlyIff(worlds[k], events[k]);
    var call := worlds[i].calls[id];
    assert worlds[i + 1] == Do(worlds[i], events[i]);
    assert Ready(worlds[i].chain, call.stage.sequence, call.def) by {
      CommitNeedsCheck(worlds, events, i, k, id);
    }
    CallStays(worlds, events, i + 1, k, id);
    forall o | o in orgs
      ensures Approved(worlds[k].chain, o, Target(call))
         <==> LastStored(worlds, events, i, k, o) in {None, Some(Target(call))}
    {
      ApprovalIsLastStored(worlds, events, i, k, o);
      assert Approved(worlds[i].chain, o, Target(call));
    }
  }

  /** A call whose next step after the check is the commit has passed the check. */
  lemma CommitNeedsCheck(worlds: seq<World>, events: seq<Event>, i: nat, k: nat, id: nat)
    requires IsSegment(worlds, events) && i < k < |events|
    requires events[i] == CheckReadiness(id) && events[k] == InstallDefinition(id)
    requires forall m | i < m < k :: events[m].id != id
    ensures Ready(worlds[i].chain, worlds[i].calls[id].stage.sequence, worlds[i].calls[id].def)
  {
    assert worlds[i + 1] == Do(worlds[i], events[i]);
    if id !in worlds[i + 1].calls {
      StaysAway(worlds, events, i + 1, k, id);
    }
  }

  lemma {:induction false} StaysAway(worlds: seq<World>, events: seq<Event>, i: nat, k: nat, id: nat)
    requires IsSegment(worlds, events) && i <= k < |worlds|
    requires id !in worlds[i].calls && forall m | i <= m < k :: events[m].id != id
    ensures id !in worlds[k].calls
  {
    if i == k {
    } else {
      StaysAway(worlds, events, i, k - 1, id);
      assert worlds[k] == Do(worlds[k - 1], events[k - 1]);
    }
  }

  /**
    At the readiness check of a call, the caller's own approval is stored at the sequence that is checked, exactly
    when the organisation has last approved just that since the call passed its approval stage; or has approved nothing
    since, and the request was not blank or the organisation had an approval already.
   */
  lemma OwnApprovalAtCheckIff(worlds: seq<World>, events: seq<Event>, orgs: set<string>, i: nat, k: nat, id: nat)
    requires IsGuardedRun(worlds, events, orgs) && i < k < |events|
    requires events[i] == QueryApproved(id) || events[i] == StoreApproval(id)
    requires events[k] == CheckReadiness(id)
    requires forall m | i < m < k :: events[m].id != id
    ensures var call := worlds[k].calls[id];
            Approved(worlds[k].chain, call.org, Target(call)) <==>
            match LastStored(worlds, events, i + 1, k, call.org)
            case Some(stored) => stored == Target(call)
            case None => call.def != BLANK || call.org in worlds[i].chain.approvals || events[i].StoreApproval?
  {
    hide Orderly, Inv, LastStored;
    RunInv(worlds, events, orgs, i);
    assert worlds[i + 1] == Do(worlds[i], events[i]);
    assert id in worlds[i + 1].calls by {
      StageBegins(worlds[i], events[i]);
    }
    StageBegins(worlds[i], events[i]);
    CallStays(worlds, events, i + 1, k, id);
    ApprovalIsLastStored(worlds, events, i + 1, k, worlds[k].calls[id].org);
  }

  /**
    A call that has just passed its approval stage has its own approval stored, unless it is blank and there was none.
   */
  lemma StageBegins(w: World, e: Event)
    requires WorldInv(w) && Enabled(w, e) && (e.QueryApproved? || e.StoreApproval?)
    ensures var v := Do(w, e);
            && e.id in v.calls && !v.calls[e.id].stage.Queried?
            && e.id in w.calls && v.calls[e.id].org == w.calls[e.id].org
    ensures var v := Do(w, e);
            v.calls[e.id].stage.Checking? ==>
              (Approved(v.chain, v.calls[e.id].org, Target(v.calls[e.id])) <==>
               v.calls[e.id].def != BLANK || v.calls[e.id].org in w.chain.approvals || e.StoreApproval?)
  {
    if e.QueryApproved? {
      StageAfterQuery(w, e.id);
      var call := w.calls[e.id];
      assert CallOk(w.chain, call);
      ComputedSequence(w.chain, call);
    }
  }

  // ---- Whole runs, by their history ----

  /** The step of this call before step k. */
  ghost function Previous(events: seq<Event>, k: nat, id: nat): (i: Option<nat>)
    requires k <= |events|
    ensures i.Some? ==> i.value < k && events[i.value].id == id && forall m | i.value < m < k :: events[m].id != id
  {
    if k == 0 then None else if events[k - 1].id == id then Some(k - 1) else Previous(events, k - 1, id)
  }

  /** A call under way is where its last step has left it. */
  lemma {:induction false} PreviousExists(worlds: seq<World>, events: seq<Event>, orgs: set<string>, k: nat, id: nat)
    requires IsRun(worlds, events, orgs) && k < |worlds| && id in worlds[k].calls
    ensures var p := Previous(events, k, id);
            p.Some? && id in worlds[p.value + 1].calls && worlds[p.value + 1].calls[id] == worlds[k].calls[id]
  {
    if k == 0 {
    } else {
      assert worlds[k] == Do(worlds[k - 1], events[k - 1]);
      if events[k - 1].id != id {
        PreviousExists(worlds, events, orgs, k - 1, id);
      }
    }
  }

  /** What has brought a call to its stage. */
  lemma StageComesFrom(w: World, e: Event)
    requires Enabled(w, e) && e.id in Do(w, e).calls
    ensures Do(w, e).calls[e.id].stage.Approving? ==> e.QueryApproved?
    ensures Do(w, e).calls[e.id].stage.Committing? ==> e.CheckReadiness?
  {
  }

  /** The query before an approval, and the check before a commit. */
  lemma PreviousIs(worlds: seq<World>, events: seq<Event>, orgs: set<string>, k: nat)
    requires IsRun(worlds, events, orgs) && k < |events|
    requires events[k].StoreApproval? || events[k].InstallDefinition?
    ensures var e := events[k]; var p := Previous(events, k, e.id);
            p.Some? && events[p.value] == if e.StoreApproval? then QueryApproved(e.id) else CheckReadiness(e.id)
  {
    var e := events[k];
    PreviousExists(worlds, events, orgs, k, e.id);
    var i := Previous(events, k, e.id).value;
    assert worlds[i + 1] == Do(worlds[i], events[i]);
    StageComesFrom(worlds[i], events[i]);
  }

  /** No approval and no commit is disturbed by what others did since the query or the check before it. */
  ghost predicate Undisturbed(worlds: seq<World>, events: seq<Event>, k: nat)
    requires IsSegment(worlds, events) && k < |events|
  {
    var e := events[k];
    var p := Previous(events, k, e.id);
    match e
    case StoreApproval(id) =>
      p.Some? && events[p.value] == QueryApproved(id) && ApprovalUndisturbed(worlds, events, p.value, k, id)
    case InstallDefinition(id) =>
      p.Some? && events[p.value] == CheckReadiness(id) && CommitUndisturbed(worlds, events, p.value, k, id)
    case _ => true
  }

  ghost predicate IsUndisturbedRun(worlds: seq<World>, events: seq<Event>, orgs: set<string>) {
    IsRun(worlds, events, orgs) && forall k | 0 <= k < |events| :: Undisturbed(worlds, events, k)
  }

  /** After a guarded prefix, a step keeps order exactly when it is undisturbed. */
  lemma StepUndisturbedIff(worlds: seq<World>, events: seq<Event>, orgs: set<string>, k: nat)
    requires IsRun(worlds, events, orgs) && k < |events|
    requires forall j | 0 <= j < k :: Guard(worlds[j], events[j])
    ensures Orderly(worlds[k].chain, worlds[k + 1].chain) <==> Undisturbed(worlds, events, k)
    ensures Guard(worlds[k], events[k]) <==> Undisturbed(worlds, events, k)
  {
    hide Orderly, ApprovalUndisturbed, CommitUndisturbed;
    RunInv(worlds, events, orgs, k);
    StepOrderlyIff(worlds[k], events[k]);
    if events[k].StoreApproval? {
      PreviousIs(worlds, events, orgs, k);
      LateApprovalIff(worlds, events, orgs, Previous(events, k, events[k].id).value, k, events[k].id);
    } else if events[k].InstallDefinition? {
      PreviousIs(worlds, events, orgs, k);
      LateCommitIff(worlds, events, orgs, Previous(events, k, events[k].id).value, k, events[k].id);
    }
  }

  lemma {:induction false} UndisturbedPrefixIff(worlds: seq<World>, events: seq<Event>, orgs: set<string>, k: nat)
    requires IsRun(worlds, events, orgs) && k <= |events|
    ensures UndisturbedIffGuarded(worlds, events, k)
  {
    hide Orderly, Guard, Enabled, Do, Undisturbed;
    if k == 0 {
    } else {
      UndisturbedPrefixIff(worlds, events, orgs, k - 1);
      if forall j | 0 <= j < k - 1 :: Guard(worlds[j], events[j]) {
        StepUndisturbedIff(worlds, events, orgs, k - 1);
      } else {
        var j :| 0 <= j < k - 1 && !Guard(worlds[j], events[j]);
        var i :| 0 <= i < k - 1 && !Undisturbed(worlds, events, i);
      }
    }
  }

  ghost predicate UndisturbedIffGuarded(worlds: seq<World>, events: seq<Event>, k: nat)
    requires IsSegment(worlds, events) && k <= |events|
  {
    (forall j | 0 <= j < k :: Undisturbed(worlds, events, j)) <==> forall j | 0 <= j < k :: Guard(worlds[j], events[j])
  }

  lemma UndisturbedIsGuarded(worlds: seq<World>, events: seq<Event>, orgs: set<string>)
    requires IsRun(worlds, events, orgs)
    ensures IsUndisturbedRun(worlds, events, orgs) <==> IsGuardedRun(worlds, events, orgs)
  {
    hide Guard, Undisturbed, Enabled, Do;
    UndisturbedPrefixIff(worlds, events, orgs, |events|);
  }

  /**
    Over every run, in any interleaving of single operations: every step keeps order exactly when none is disturbed.
   */
  lemma RunOrderlyIff(worlds: seq<World>, events: seq<Event>, orgs: set<string>)
    requires IsRun(worlds, events, orgs)
    ensures (forall k | 0 <= k < |events| :: Orderly(worlds[k].chain, worlds[k + 1].chain))
       <==> IsUndisturbedRun(worlds, events, orgs)
  {
    hide *;
    RunGuardedIff(worlds, events, orgs);
    UndisturbedIsGuarded(worlds, events, orgs);
  }

  /**
    Over every undisturbed run: a commit raises the sequence by one and installs what all have approved; nothing else
    touches it.
   */
  lemma EveryCommitIsApproved(worlds: seq<World>, events: seq<Event>, orgs: set<string>, k: nat)
    requires IsUndisturbedRun(worlds, events, orgs) && k < |events|
    requires worlds[k + 1].chain.committed != worlds[k].chain.committed
    ensures var s, t := worlds[k].chain, worlds[k + 1].chain;
            && events[k].InstallDefinition?
            && t.committed.Some? && CommittedSequence(t) == CommittedSequence(s) + 1
            && forall o | o in orgs :: Approved(s, o, t.committed.value)
  {
    UndisturbedIsGuarded(worlds, events, orgs);
    RunInv(worlds, events, orgs, k);
    StepOrderlyIff(worlds[k], events[k]);
    hide Inv, Guard;
  }

  /** The same where no call is interrupted within its queries and approval, or between its check and its commit. */
  lemma AtomicCommitIsApproved(worlds: seq<World>, events: seq<Event>, orgs: set<string>, k: nat)
    requires IsRun(worlds, events, orgs) && forall j | 0 <= j < |events| :: Uninterrupted(events, j)
    requires k < |events| && worlds[k + 1].chain.committed != worlds[k].chain.committed
    ensures var s, t := worlds[k].chain, worlds[k + 1].chain;
            && events[k].InstallDefinition?
            && t.committed.Some? && CommittedSequence(t) == CommittedSequence(s) + 1
            && forall o | o in orgs :: Approved(s, o, t.committed.value)
  {
    hide *;
    assert IsGuardedRun(worlds, events, orgs) by {
      AtomicRunIsGuarded(worlds, events, orgs);
    }
    UndisturbedIsGuarded(worlds, events, orgs);
    EveryCommitIsApproved(worlds, events, orgs, k);
  }

  lemma AtomicRunIsGuarded(worlds: seq<World>, events: seq<Event>, orgs: set<string>)
    requires IsRun(worlds, events, orgs) && forall j | 0 <= j < |events| :: Uninterrupted(events, j)
    ensures IsGuardedRun(worlds, events, orgs)
  {
    hide Guard, Uninterrupted, Enabled, Do;
    AtomicPhasesAreGuarded(worlds, events, orgs, |events|);
  }

  /**
    Over every undisturbed run: each last approval is at the committed sequence or the next, and a query made now leads
    to the next.
   */
  lemma ApprovalsKeepUp(worlds: seq<World>, events: seq<Event>, orgs: set<string>, k: nat, org: string)
    requires IsUndisturbedRun(worlds, events, orgs) && k < |worlds| && org in orgs
    ensures var s := worlds[k].chain; var c := CommittedSequence(s);
            && c <= LastApproved(s, org).sequence <= c + 1
            && Sequence(s.committed, LastApproved(s, org)) == c + 1
  {
    UndisturbedIsGuarded(worlds, events, orgs);
    RunInv(worlds, events, orgs, k);
    SequenceIsNext(worlds[k].chain, org);
  }
}

/** Whole calls as sequences of steps, and runs in which calls get into each other's way. */
module LifecycleDisorder {
  import opened Outcomes
  import opened Lifecycle
  import opened LifecycleRuns

  // ---- A whole call ----

  /** The steps lead from one world to the other. */
  ghost predicate Leads(w: World, events: seq<Event>, v: World)
    decreases |events|
  {
    if events == [] then w == v else Enabled(w, events[0]) && Leads(Do(w, events[0]), events[1..], v)
  }

  lemma LeadsOn(w: World, e: Event, events: seq<Event>, v: World)
    requires Enabled(w, e) && Leads(Do(w, e), events, v)
    ensures Leads(w, [e] + events, v)
  {
    assert ([e] + events)[1..] == events;
  }

  lemma {:induction false} LeadsThrough(w: World, first: seq<Event>, v: World, second: seq<Event>, x: World)
    requires Leads(w, first, v) && Leads(v, second, x)
    ensures Leads(w, first + second, x)
    decreases |first|
  {
    if first == [] {
      assert first + second == second;
    } else {
      LeadsThrough(Do(w, first[0]), first[1..], v, second, x);
      assert (first + second)[1..] == first[1..] + second;
    }
  }

  function ApprovalEvents(s: Chain, id: nat, org: string, def: Definition): seq<Event> {
    [Begin(id, org, def), QueryApproved(id)] + if IsApproved(LastApproved(s, org), def) then [] else [StoreApproval(id)]
  }

  function CommitEvents(s: Chain, id: nat, sequence: int, def: Definition): seq<Event> {
    [CheckReadiness(id)] + if Ready(s, sequence, def) then [InstallDefinition(id)] else []
  }

  /** The operations of a call that nobody interrupts. */
  function CallEvents(s: Chain, id: nat, org: string, def: Definition): seq<Event> {
    if Found(s.committed, def) then [Begin(id, org, def)]
    else
      ApprovalEvents(s, id, org, def)
      + CommitEvents(Approve(s, org, def), id, Sequence(s.committed, LastApproved(s, org)), def)
  }

  lemma ApprovalIsSteps(w: World, id: nat, org: string, def: Definition)
    requires org in w.chain.orgs && id !in w.calls && !Found(w.chain.committed, def)
    ensures var s := w.chain; var sequence := Sequence(s.committed, LastApproved(s, org));
            Leads(w, ApprovalEvents(s, id, org, def),
                  World(Approve(s, org, def), w.calls[id := Ongoing(org, def, Checking(sequence))]))
  {
    hide IsApproved, LastApproved, Sequence;
    var w1 := Do(w, Begin(id, org, def));
    var w2 := Do(w1, QueryApproved(id));
    var sequence := Sequence(w.chain.committed, LastApproved(w.chain, org));
    var goal := w.calls[id := Ongoing(org, def, Checking(sequence))];
    if IsApproved(LastApproved(w.chain, org), def) {
      assert w2.calls == goal;
      LeadsOn(w1, QueryApproved(id), [], w2);
      LeadsOn(w, Begin(id, org, def), [QueryApproved(id)], w2);
      assert [Begin(id, org, def)] + [QueryApproved(id)] == ApprovalEvents(w.chain, id, org, def);
    } else {
      var w3 := Do(w2, StoreApproval(id));
      assert w3.calls == goal;
      LeadsOn(w2, StoreApproval(id), [], w3);
      LeadsOn(w1, QueryApproved(id), [StoreApproval(id)], w3);
      LeadsOn(w, Begin(id, org, def), [QueryApproved(id), StoreApproval(id)], w3);
      assert [Begin(id, org, def)] + [QueryApproved(id), StoreApproval(id)] == ApprovalEvents(w.chain, id, org, def);
    }
  }

  lemma CommitIsSteps(w: World, id: nat)
    requires id in w.calls && w.calls[id].stage.Checking?
    ensures var call := w.calls[id]; var sequence := call.stage.sequence;
            Leads(w, CommitEvents(w.chain, id, sequence, call.def),
                  World(Commit(w.chain, sequence, call.def), w.calls - {id}))
  {
    hide Ready;
    var call := w.calls[id];
    var v := Do(w, CheckReadiness(id));
    if Ready(w.chain, call.stage.sequence, call.def) {
      var x := Do(v, InstallDefinition(id));
      assert v.calls - {id} == w.calls - {id};
      LeadsOn(v, InstallDefinition(id), [], x);
      LeadsOn(w, CheckReadiness(id), [InstallDefinition(id)], x);
    } else {
      LeadsOn(w, CheckReadiness(id), [], v);
    }
  }

  /** A call that nobody interrupts acts as the function that LifecycleFull is proved to compute. */
  lemma CallIsItsSteps(w: World, id: nat, org: string, def: Definition)
    requires org in w.chain.orgs && id !in w.calls
    ensures Leads(w, CallEvents(w.chain, id, org, def), World(Call(w.chain, org, def), w.calls))
  {
    hide Approve, Commit, Ready, LastApproved, Sequence, ApprovalEvents, CommitEvents, Leads;
    if Found(w.chain.committed, def) {
      assert Leads(Do(w, Begin(id, org, def)), [], w) by {
        NoStep(w);
      }
      LeadsOn(w, Begin(id, org, def), [], w);
      assert [Begin(id, org, def)] + [] == CallEvents(w.chain, id, org, def);
    } else {
      var s := w.chain;
      var sequence := Sequence(s.committed, LastApproved(s, org));
      var v := World(Approve(s, org, def), w.calls[id := Ongoing(org, def, Checking(sequence))]);
      ApprovalIsSteps(w, id, org, def);
      CommitIsSteps(v, id);
      assert v.calls - {id} == w.calls;
      LeadsThrough(w, ApprovalEvents(s, id, org, def), v, CommitEvents(v.chain, id, sequence, def),
                   World(Call(s, org, def), w.calls));
    }
  }

  lemma NoStep(w: World)
    ensures Leads(w, [], w)
  {
  }

  // ---- Runs that lose their order ----

  /** Some run, guarded or not, ends in this world. */
  ghost predicate Reachable(orgs: set<string>, w: World) {
    exists worlds, events :: IsRun(worlds, events, orgs) && worlds[|events|] == w
  }

  lemma ReachableStart(orgs: set<string>)
    ensures Reachable(orgs, Start(orgs))
  {
    assert IsRun([Start(orgs)], [], orgs);
  }

  lemma {:induction false} OneStep(orgs: set<string>, w: World, e: Event)
    requires Reachable(orgs, w) && Enabled(w, e)
    ensures Reachable(orgs, Do(w, e))
  {
    var worlds, events :| IsRun(worlds, events, orgs) && worlds[|events|] == w;
    assert IsRun(worlds + [Do(w, e)], events + [e], orgs);
  }

  lemma {:induction false} ReachableOn(orgs: set<string>, w: World, events: seq<Event>, v: World)
    requires Reachable(orgs, w) && Leads(w, events, v)
    ensures Reachable(orgs, v)
    decreases |events|
  {
    hide Reachable;
    if events == [] {
    } else {
      OneStep(orgs, w, events[0]);
      ReachableOn(orgs, Do(w, events[0]), events[1..], v);
    }
  }

  lemma TwoCalls(org: string, other: string, d: Definition)
    requires org != other && d != BLANK
    ensures var empty := Chain({org, other}, None, map[]);
            && Call(empty, org, d) == empty.(approvals := map[org := Stored(1, d)])
            && Call(Call(empty, org, d), other, d)
            == Chain({org, other}, Some(Stored(1, d)), map[org := Stored(1, d), other := Stored(1, d)])
  {
    var empty := Chain({org, other}, None, map[]);
    var one := Chain({org, other}, None, map[org := Stored(1, d)]);
    assert LastApproved(one, other) == NOTHING;
    assert Call(empty, org, d) == one;
    var two := Approve(one, other, d);
    assert two.approvals == map[org := Stored(1, d), other := Stored(1, d)];
    assert Ready(two, 1, d);
  }

  /** A definition that has been seen missing is committed by others before the call queries its own approval. */
  lemma StaleReadStalls(org: string, other: string, d1: Definition, d2: Definition)
    requires org != other && d1 != BLANK && d2 != BLANK && !Found(Some(Stored(1, d1)), d2)
    ensures exists w, v :: && Reachable({org, other}, w) && WorldInv(w)
                           && Enabled(w, StoreApproval(0)) && v == Do(w, StoreApproval(0)) && Stalled(v.chain, org, d2)
  {
    hide Call, Leads, Reachable;
    var orgs := {org, other};
    var empty := Chain(orgs, None, map[]);
    TwoCalls(org, other, d1);
    assert Reachable(orgs, Start(orgs)) by {
      ReachableStart(orgs);
    }
    // One organisation calls for d1, and then begins a call for d2.
    var w1 := World(Call(empty, org, d1), map[]);
    CallIsItsSteps(Start(orgs), 0, org, d1);
    ReachableOn(orgs, Start(orgs), CallEvents(empty, 0, org, d1), w1);
    var w2 := Do(w1, Begin(0, org, d2));
    OneStep(orgs, w1, Begin(0, org, d2));
    // The other one's call commits d1.
    var w3 := World(Call(w2.chain, other, d1), w2.calls);
    CallIsItsSteps(w2, 1, other, d1);
    ReachableOn(orgs, w2, CallEvents(w2.chain, 1, other, d1), w3);
    // The call for d2 goes on.
    var w4 := Do(w3, QueryApproved(0));
    OneStep(orgs, w3, QueryApproved(0));
    assert LastApproved(w3.chain, org) == Stored(1, d1) && w4.calls[0] == Ongoing(org, d2, Approving(1));
    var w5 := Do(w4, StoreApproval(0));
    assert forall o | o in orgs :: LastApproved(w5.chain, o).sequence == 1;
    assert Stalled(w5.chain, org, d2);
    assert WorldInv(w4);
  }

  /** Both organisations have approved d; the second one has found it ready and is about to commit. */
  lemma CommitPending(org: string, other: string, d: Definition)
    requires org != other && d != BLANK
    ensures var approvals := map[org := Stored(1, d), other := Stored(1, d)];
            Reachable({org, other},
                      World(Chain({org, other}, None, approvals), map[0 := Ongoing(other, d, Committing(1))]))
  {
    hide Call, Leads, Reachable;
    var orgs := {org, other};
    var empty := Chain(orgs, None, map[]);
    TwoCalls(org, other, d);
    ReachableStart(orgs);
    var w1 := World(Call(empty, org, d), map[]);
    CallIsItsSteps(Start(orgs), 0, org, d);
    ReachableOn(orgs, Start(orgs), CallEvents(empty, 0, org, d), w1);
    var s := Chain(orgs, None, map[org := Stored(1, d), other := Stored(1, d)]);
    assert LastApproved(w1.chain, other) == NOTHING && Approve(w1.chain, other, d) == s;
    var w2 := World(s, map[0 := Ongoing(other, d, Checking(1))]);
    ApprovalIsSteps(w1, 0, other, d);
    ReachableOn(orgs, w1, ApprovalEvents(w1.chain, 0, other, d), w2);
    assert Ready(s, 1, d);
    OneStep(orgs, w2, CheckReadiness(0));
    assert Do(w2, CheckReadiness(0)).calls == map[0 := Ongoing(other, d, Committing(1))];
  }

  /** An approval is replaced between the readiness check and the commit of another call. */
  lemma LateCommitIsUnapproved(org: string, other: string, d1: Definition, d2: Definition)
    requires org != other && d1 != BLANK && d2 != BLANK && !Found(Some(Stored(1, d1)), d2)
    ensures exists w, v :: && Reachable({org, other}, w) && WorldInv(w)
                           && Enabled(w, InstallDefinition(0)) && v == Do(w, InstallDefinition(0))
                           && v.chain.committed == Some(Stored(1, d1)) && !Approved(w.chain, other, Stored(1, d1))
                           && Stalled(v.chain, other, d2)
  {
    hide Call, Leads, Reachable;
    var orgs := {org, other};
    CommitPending(org, other, d1);
    var s := Chain(orgs, None, map[org := Stored(1, d1), other := Stored(1, d1)]);
    var w := World(s, map[0 := Ongoing(other, d1, Committing(1))]);
    // Before it commits, it approves d2 in another call.
    assert LastApproved(s, other) == Stored(1, d1);
    var x := World(Approve(s, other, d2), w.calls[1 := Ongoing(other, d2, Checking(1))]);
    ApprovalIsSteps(w, 1, other, d2);
    ReachableOn(orgs, w, ApprovalEvents(s, 1, other, d2), x);
    assert x.chain.approvals == map[org := Stored(1, d1), other := Stored(1, d2)];
    assert Stalled(Do(x, InstallDefinition(0)).chain, other, d2);
    assert WorldInv(x);
  }
}

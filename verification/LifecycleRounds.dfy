/**
  Rounds of calls for one new definition: from whatever state a run has reached, the calls overlap in any
  way until every organisation has called. What is committed in the end is determined by that state alone.
 */
module LifecycleRounds {
  import opened Outcomes
  import opened Lifecycle
  import opened LifecycleRuns

  // ---- What holds in every run, orderly or not ----

  ghost predicate SaneCall(s: Chain, call: Ongoing) {
    && call.org in s.orgs
    && match call.stage
       case Queried(seen) => seen.Some? ==> seen.value.sequence >= 1
       case Approving(sequence) => sequence >= 1
       case Checking(sequence) => sequence >= 1
       case Committing(sequence) => sequence >= 1 && s.orgs <= s.approvals.Keys
  }

  ghost predicate SaneWorld(w: World) {
    Sane(w.chain) && forall id | id in w.calls :: SaneCall(w.chain, w.calls[id])
  }

  lemma SaneStep(w: World, e: Event)
    requires SaneWorld(w) && Enabled(w, e)
    ensures SaneWorld(Do(w, e)) && Do(w, e).chain.orgs == w.chain.orgs
  {
    if e.Begin? {
    } else {
      assert SaneCall(w.chain, w.calls[e.id]);
    }
  }

  lemma {:induction false} RunIsSane(worlds: seq<World>, events: seq<Event>, orgs: set<string>, k: nat)
    requires IsRun(worlds, events, orgs) && k < |worlds|
    ensures SaneWorld(worlds[k]) && worlds[k].chain.orgs == orgs
  {
    if k == 0 {
    } else {
      RunIsSane(worlds, events, orgs, k - 1);
      SaneStep(worlds[k - 1], events[k - 1]);
    }
  }

  // ---- The calls of a round ----

  /**
    A step of a call of the round: it is for def, does not fail, and is none of the calls that were under way before.
   */
  predicate IsFor(e: Event, def: Definition, before: set<nat>) {
    !e.Abandon? && e.id !in before && (e.Begin? ==> e.def == def)
  }

  /** The organisations that have begun a call in the first k steps. */
  function Callers(events: seq<Event>, k: nat): set<string>
    requires k <= |events|
  {
    if k == 0 then {} else Callers(events, k - 1) + Caller(events[k - 1])
  }

  function Caller(e: Event): set<string> {
    if e.Begin? then {e.org} else {}
  }

  /** A call that has approved checks where its organisation aims, unless nothing can be committed there. */
  predicate Checks(s: Chain, org: string, def: Definition, sequence: int) {
    sequence == Aim(s, org, def) <==> Aim(s, org, def) != CommittedSequence(s) && Aim(s, org, def) != 0
  }

  /** A call of the round, which began when the chain was s. */
  ghost predicate OnCourse(s: Chain, t: Chain, call: Ongoing, def: Definition) {
    && call.def == def && call.org in s.orgs
    && match call.stage
       case Queried(seen) => seen == s.committed
       case Approving(sequence) => sequence == Aim(s, call.org, def) && !IsApproved(LastApproved(s, call.org), def)
       case Checking(sequence) => OnAim(s, t, call.org, def) && Checks(s, call.org, def, sequence)
       case Committing(sequence) =>
         OnAim(s, t, call.org, def) && Checks(s, call.org, def, sequence) && Ready(t, sequence, def)
  }

  ghost predicate UnderCall(calls: map<nat, Ongoing>, org: string, before: set<nat>) {
    exists id :: id in calls && id !in before && calls[id].org == org
  }

  ghost predicate NoneUnderWay(calls: map<nat, Ongoing>, before: set<nat>) {
    calls.Keys <= before
  }

  /**
    Each caller has a call under way or has approved where it aims, and if no call is under way there is nothing to
    commit.
   */
  ghost predicate Unfinished(s: Chain, w: World, def: Definition, before: set<nat>, callers: set<string>) {
    && (forall o | o in callers :: UnderCall(w.calls, o, before) || OnAim(s, w.chain, o, def))
    && (callers != {} && NoneUnderWay(w.calls, before) ==> NotReady(s, w.chain, def))
  }

  ghost predicate CallsOnCourse(s: Chain, w: World, def: Definition, before: set<nat>) {
    forall id | id in w.calls && id !in before :: OnCourse(s, w.chain, w.calls[id], def)
  }

  ghost predicate RoundInv(s: Chain, w: World, def: Definition, before: set<nat>, callers: set<string>) {
    && Pursued(s, w.chain, def)
    && CallsOnCourse(s, w, def, before)
    && (w.chain.committed == s.committed ==> Unfinished(s, w, def, before, callers))
    && callers <= s.orgs
  }

  /** What a round starts from: any state of the ledger, and a definition that is not committed. */
  ghost predicate Starts(s: Chain, def: Definition) {
    Sane(s) && s.orgs != {} && !Found(s.committed, def)
  }

  // ---- Steps ----

  /**
    What a step of the round does to the chain: the organisation approves where it aims, or what all aim at is
    committed.
   */
  lemma PursuedStep(s: Chain, w: World, e: Event, def: Definition, before: set<nat>)
    requires Starts(s, def) && Pursued(s, w.chain, def) && CallsOnCourse(s, w, def, before)
    requires Enabled(w, e) && IsFor(e, def, before)
    ensures Pursued(s, Do(w, e).chain, def)
    ensures forall o | o in s.orgs && OnAim(s, w.chain, o, def) :: OnAim(s, Do(w, e).chain, o, def)
    ensures e.StoreApproval? ==> OnAim(s, Do(w, e).chain, w.calls[e.id].org, def)
    ensures e.InstallDefinition? ==> Settled(s, Do(w, e).chain, def)
  {
    hide Sane, Pursued, Aim, Settled, Ready, IsApproved, LastApproved;
    assert !e.Begin? ==> OnCourse(s, w.chain, w.calls[e.id], def);
    match e {
      case StoreApproval(id) => StoreOnAim(s, w.chain, w.calls[id].org, def);
      case InstallDefinition(id) =>
        InstallOnAim(s, w.chain, w.calls[id].stage.sequence, def, w.calls[id].org);
        forall o | o in s.orgs && OnAim(s, w.chain, o, def) ensures OnAim(s, Do(w, e).chain, o, def) {
          InstallLeavesApprovals(w.chain, w.calls[id].stage.sequence, def, o);
        }
      case _ =>
    }
  }

  lemma InstallLeavesApprovals(s: Chain, sequence: int, def: Definition, o: string)
    ensures LastApproved(Install(s, sequence, def), o) == LastApproved(s, o)
  {
  }

  /** What is ready stays so: an organisation that has approved where all aim does not approve anything else. */
  lemma ReadyStays(s: Chain, t: Chain, u: Chain, def: Definition, x: int)
    requires Pursued(s, t, def) && Pursued(s, u, def) && Ready(t, x, def)
    requires forall o | o in s.orgs && OnAim(s, t, o, def) :: OnAim(s, u, o, def)
    ensures Ready(u, x, def)
  {
    ReadyIsAgreed(s, t, def, x);
    forall o | o in s.orgs ensures o in u.approvals && u.approvals[o] == Stored(x, def) {
      assert Aim(s, o, def) == x && LastApproved(t, o) == Stored(x, def);
      assert OnAim(s, t, o, def);
    }
  }

  /** The stage that the own approval leads to. */
  lemma QueryOnCourse(s: Chain, t: Chain, call: Ongoing, def: Definition)
    requires Starts(s, def) && Pursued(s, t, def) && OnCourse(s, t, call, def) && call.stage.Queried?
    ensures var last := LastApproved(t, call.org);
            if IsApproved(last, def) then
              OnAim(s, t, call.org, def) && Checks(s, call.org, def, Sequence(s.committed, last))
            else Sequence(s.committed, last) == Aim(s, call.org, def) && !IsApproved(LastApproved(s, call.org), def)
  {
    assert OnAim(s, t, call.org, def) || LastApproved(t, call.org) == LastApproved(s, call.org);
    if IsApproved(LastApproved(t, call.org), def) {
      CheckedSequence(s, t, call.org, def);
    }
  }

  lemma StoreOnCourse(s: Chain, call: Ongoing, t: Chain, def: Definition)
    requires Starts(s, def) && OnCourse(s, t, call, def) && call.stage.Approving?
    ensures Checks(s, call.org, def, call.stage.sequence)
  {
    FirstAim(s, call.org, def);
  }

  lemma OnCourseStep(s: Chain, w: World, e: Event, def: Definition, before: set<nat>, id: nat)
    requires Starts(s, def) && Pursued(s, w.chain, def) && CallsOnCourse(s, w, def, before)
    requires w.chain.committed == s.committed || !e.Begin?
    requires Enabled(w, e) && IsFor(e, def, before)
    requires id in Do(w, e).calls && id !in before && w.chain.orgs == s.orgs
    ensures OnCourse(s, Do(w, e).chain, Do(w, e).calls[id], def)
  {
    hide Starts, Pursued, Ready, Aim, IsApproved, LastApproved, Sequence, Checks, OnAim;
    PursuedStep(s, w, e, def, before);
    if id in w.calls {
      var call := w.calls[id];
      assert OnCourse(s, w.chain, call, def);
      if call.stage.Committing? {
        ReadyStays(s, w.chain, Do(w, e).chain, def, call.stage.sequence);
      }
      if id == e.id {
        match e {
          case QueryApproved(_) => QueryOnCourse(s, w.chain, call, def);
          case StoreApproval(_) => StoreOnCourse(s, call, w.chain, def);
          case _ =>
        }
      }
    }
  }

  lemma CallersStep(s: Chain, w: World, e: Event, def: Definition, before: set<nat>, callers: set<string>, o: string)
    requires Starts(s, def) && RoundInv(s, w, def, before, callers) && Enabled(w, e) && IsFor(e, def, before)
    requires w.chain.committed == s.committed && !e.InstallDefinition?
    requires o in callers + Caller(e)
    ensures UnderCall(Do(w, e).calls, o, before) || OnAim(s, Do(w, e).chain, o, def)
  {
    hide Sane, Pursued, Ready, Aim, IsApproved, LastApproved, Sequence, Checks, OnAim, NotReady, Found;
    var v := Do(w, e);
    PursuedStep(s, w, e, def, before);
    if e.Begin? && o == e.org {
      assert e.id in v.calls && v.calls[e.id].org == o;
    } else if !OnAim(s, w.chain, o, def) {
      var id :| id in w.calls && id !in before && w.calls[id].org == o;
      assert OnCourse(s, w.chain, w.calls[id], def);
      if id in v.calls {
        assert v.calls[id].org == o;
      }
    }
  }

  /** If the last call leaves without a commit, there was nothing to commit. */
  lemma LastOneLeaves(s: Chain, w: World, e: Event, def: Definition, before: set<nat>, callers: set<string>)
    requires Starts(s, def) && RoundInv(s, w, def, before, callers) && Enabled(w, e) && IsFor(e, def, before)
    requires w.chain.committed == s.committed && !e.InstallDefinition?
    ensures NoneUnderWay(Do(w, e).calls, before) ==> NotReady(s, Do(w, e).chain, def)
  {
    hide Sane, Pursued, Ready, Aim, IsApproved, LastApproved, Sequence, OnAim, NotReady, Found;
    var v := Do(w, e);
    if e.CheckReadiness? {
      var call := w.calls[e.id];
      assert OnCourse(s, w.chain, call, def);
      if Ready(w.chain, call.stage.sequence, def) {
        assert e.id in v.calls;
      } else {
        NotReadyAfterCheck(s, w.chain, call.org, call.stage.sequence, def);
      }
    } else {
      assert e.id in v.calls;
    }
  }

  lemma RoundStep(s: Chain, w: World, e: Event, def: Definition, before: set<nat>, callers: set<string>)
    requires Starts(s, def) && RoundInv(s, w, def, before, callers)
    requires Enabled(w, e) && IsFor(e, def, before)
    ensures RoundInv(s, Do(w, e), def, before, callers + Caller(e))
  {
    hide Starts, Pursued, OnCourse, Do, Enabled, OnAim, NotReady, UnderCall;
    PursuedStep(s, w, e, def, before);
    CommittedStep(s, w, e, def, before);
    if w.chain.committed != s.committed && e.Begin? {
      assert CallsOnCourse(s, Do(w, e), def, before);
    } else {
      forall id | id in Do(w, e).calls && id !in before ensures OnCourse(s, Do(w, e).chain, Do(w, e).calls[id], def) {
        OnCourseStep(s, w, e, def, before, id);
      }
    }
    if Do(w, e).chain.committed == s.committed {
      forall o | o in callers + Caller(e)
        ensures UnderCall(Do(w, e).calls, o, before) || OnAim(s, Do(w, e).chain, o, def)
      {
        CallersStep(s, w, e, def, before, callers, o);
      }
      LastOneLeaves(s, w, e, def, before, callers);
    }
  }

  /** A commit is final in the round: it makes def found, so that no call begins any more. */
  lemma CommittedStep(s: Chain, w: World, e: Event, def: Definition, before: set<nat>)
    requires Starts(s, def) && Pursued(s, w.chain, def) && CallsOnCourse(s, w, def, before)
    requires Enabled(w, e) && IsFor(e, def, before)
    ensures w.chain.orgs == s.orgs && Caller(e) <= s.orgs
    ensures w.chain.committed != s.committed && e.Begin? ==> Do(w, e) == w
    ensures Do(w, e).chain.committed == s.committed ==> w.chain.committed == s.committed && !e.InstallDefinition?
  {
    PursuedStep(s, w, e, def, before);
    hide Sane, Agreed, Ready, OnAim;
  }

  // ---- Rounds ----

  lemma {:induction false} RoundPrefix(worlds: seq<World>, events: seq<Event>, def: Definition, k: nat)
    requires IsSegment(worlds, events) && Starts(worlds[0].chain, def)
    requires forall e | e in events :: IsFor(e, def, worlds[0].calls.Keys)
    requires k <= |events|
    ensures RoundInv(worlds[0].chain, worlds[k], def, worlds[0].calls.Keys, Callers(events, k))
  {
    hide RoundInv, Starts, Do, Enabled, IsFor;
    if k == 0 {
      assert RoundInv(worlds[0].chain, worlds[0], def, worlds[0].calls.Keys, {}) by {
        RoundBegins(worlds[0], def);
      }
    } else {
      RoundPrefix(worlds, events, def, k - 1);
      assert events[k - 1] in events;
      RoundStep(worlds[0].chain, worlds[k - 1], events[k - 1], def, worlds[0].calls.Keys, Callers(events, k - 1));
    }
  }

  lemma RoundBegins(w: World, def: Definition)
    requires Starts(w.chain, def)
    ensures RoundInv(w.chain, w, def, w.calls.Keys, {})
  {
  }

  /** The steps of a round: every organisation calls for def, and in the end no call of the round is under way. */
  ghost predicate IsRound(worlds: seq<World>, events: seq<Event>, def: Definition) {
    && IsSegment(worlds, events)
    && (forall e | e in events :: IsFor(e, def, worlds[0].calls.Keys))
    && worlds[0].chain.orgs <= Callers(events, |events|)
    && NoneUnderWay(worlds[|events|].calls, worlds[0].calls.Keys)
  }

  /**
    From the state that any run has reached, orderly or not, and for any number of calls for a definition that is not
    committed, in any interleaving of their operations, beside any other calls that rest: once every organisation has
    called, def is committed where all of them aim, if they all aim at one sequence other than the committed one; and
    otherwise the committed definition stays. In particular, def is committed at the next sequence iff all aim there.
   */
  lemma OutcomeOfRound(worlds: seq<World>, events: seq<Event>, orgs: set<string>, i: nat,
                       later: seq<World>, calls: seq<Event>, def: Definition)
    requires IsRun(worlds, events, orgs) && i < |worlds|
    requires IsRound(later, calls, def) && later[0] == worlds[i]
    requires orgs != {} && !Found(worlds[i].chain.committed, def)
    ensures var s, t := worlds[i].chain, later[|calls|].chain; var c := CommittedSequence(s);
            && (forall x | x != c && Agreed(s, def, x) :: t.committed == Some(Stored(x, def)))
            && ((forall x | x != c :: !Agreed(s, def, x)) ==> t.committed == s.committed)
            && (t.committed == Some(Stored(c + 1, def)) <==> Agreed(s, def, c + 1))
  {
    hide Sane, Do, Enabled, IsFor, Agreed, Found, OnAim, NotReady, Pursued, OnCourse;
    RunIsSane(worlds, events, orgs, i);
    var s, w := worlds[i].chain, later[|calls|];
    RoundPrefix(later, calls, def, |calls|);
    if w.chain.committed == s.committed {
      forall o | o in s.orgs ensures OnAim(s, w.chain, o, def) {
        assert o in Callers(calls, |calls|) && !UnderCall(w.calls, o, later[0].calls.Keys);
      }
    }
    SettledOrBlocked(s, w.chain, def);
  }

  /** Before the round is over, too, nothing else can have been committed. */
  lemma RoundIsSafe(worlds: seq<World>, events: seq<Event>, orgs: set<string>, i: nat,
                    later: seq<World>, calls: seq<Event>, def: Definition, k: nat)
    requires IsRun(worlds, events, orgs) && i < |worlds|
    requires IsSegment(later, calls) && later[0] == worlds[i] && k <= |calls|
    requires forall e | e in calls :: IsFor(e, def, worlds[i].calls.Keys)
    requires orgs != {} && !Found(worlds[i].chain.committed, def)
    ensures var s, t := worlds[i].chain, later[k].chain;
            || t.committed == s.committed
            || (&& t.committed.Some? && t.committed.value.def == def
                && t.committed.value.sequence != CommittedSequence(s)
                && Agreed(s, def, t.committed.value.sequence))
  {
    RunIsSane(worlds, events, orgs, i);
    RoundPrefix(later, calls, def, k);
  }

  // ---- Rounds that follow an orderly run ----

  /** Where all aim at the next sequence every step of the round is guarded. */
  lemma RoundGuard(s: Chain, w: World, e: Event, def: Definition, before: set<nat>)
    requires Starts(s, def) && Pursued(s, w.chain, def) && CallsOnCourse(s, w, def, before)
    requires Agreed(s, def, CommittedSequence(s) + 1)
    requires Enabled(w, e) && IsFor(e, def, before)
    ensures Guard(w, e)
  {
    hide Sane, Ready, IsApproved, Sequence;
    if e.StoreApproval? || e.InstallDefinition? {
      assert OnCourse(s, w.chain, w.calls[e.id], def);
    }
    if w.chain.committed != s.committed {
      OneAgreement(s, def, CommittedSequence(s) + 1, w.chain.committed.value.sequence);
    }
  }

  /**
    After an orderly run all aim at the next sequence: once every organisation has called, in any interleaving, def is
    committed there. No step of the round is disturbed, and further calls change nothing.
   */
  lemma ProgressFromAnyRun(worlds: seq<World>, events: seq<Event>, orgs: set<string>, i: nat,
                           later: seq<World>, calls: seq<Event>, def: Definition)
    requires IsUndisturbedRun(worlds, events, orgs) && i < |worlds|
    requires IsRound(later, calls, def) && later[0] == worlds[i]
    requires orgs != {} && def != BLANK && !Found(worlds[i].chain.committed, def)
    ensures var s, t := worlds[i].chain, later[|calls|].chain;
            && t.committed == Some(Stored(CommittedSequence(s) + 1, def))
            && forall org :: Call(t, org, def) == t
    ensures forall k | 0 <= k < |calls| :: Guard(later[k], calls[k])
  {
    hide Sane, Do, Enabled, IsFor, Guard, Agreed, Undisturbed;
    UndisturbedIsGuarded(worlds, events, orgs);
    RunInv(worlds, events, orgs, i);
    var s := worlds[i].chain;
    InvAgreed(s, def);
    OutcomeOfRound(worlds, events, orgs, i, later, calls, def);
    forall k | 0 <= k < |calls| ensures Guard(later[k], calls[k]) {
      RoundPrefix(later, calls, def, k);
      assert calls[k] in calls;
      RoundGuard(s, later[k], calls[k], def, later[0].calls.Keys);
    }
  }
}

/**
  The chaincode lifecycle, driven by many organisations that each call LifecycleFull: look for the
  definition among the committed ones, approve it at a computed sequence, and commit it when every
  organisation has approved it. This module has one call at a time; see LifecycleRuns for calls that overlap.
 */
module Lifecycle {
  import opened Outcomes
  import opened ConfigTree

  // ---- Definitions and what the ledger stores ----

  datatype Definition = Definition(version: string, policy: Bytes, initRequired: bool)

  datatype Stored = Stored(sequence: int, def: Definition)

  const BLANK := Definition("", [], false)

  /** The answer to a query for an approved definition when there is none. */
  const NOTHING := Stored(0, BLANK)

  datatype Committed = Committed(name: string, stored: Stored)

  /** The ledger's knowledge of one chaincode. */
  datatype Chain = Chain(orgs: set<string>, committed: Option<Stored>, approvals: map<string, Stored>)

  function CommittedSequence(s: Chain): int {
    if s.committed.Some? then s.committed.value.sequence else 0
  }

  function LastApproved(s: Chain, org: string): Stored {
    if org in s.approvals then s.approvals[org] else NOTHING
  }

  // ---- The tests of LifecycleFull ----

  /** The policy is not compared. */
  predicate Found(committed: Option<Stored>, def: Definition) {
    committed.Some? && committed.value.def.version == def.version
      && committed.value.def.initRequired == def.initRequired
  }

  /** The sequence is not compared. */
  predicate IsApproved(last: Stored, def: Definition) {
    def.version == last.def.version && def.initRequired == last.def.initRequired && def.policy == last.def.policy
  }

  function Sequence(committed: Option<Stored>, last: Stored): int {
    if committed.Some? && committed.value.sequence == last.sequence then committed.value.sequence + 1
    else if last.sequence == 0 then 1
    else last.sequence
  }

  /** Every organisation has approved this definition at this sequence. */
  predicate Ready(s: Chain, sequence: int, def: Definition) {
    forall o | o in s.orgs :: o in s.approvals && s.approvals[o] == Stored(sequence, def)
  }

  // ---- A call ----

  /** Query and approve. */
  function Approve(s: Chain, org: string, def: Definition): Chain {
    if IsApproved(LastApproved(s, org), def) then s
    else s.(approvals := s.approvals[org := Stored(Sequence(s.committed, LastApproved(s, org)), def)])
  }

  function Install(s: Chain, sequence: int, def: Definition): Chain {
    s.(committed := Some(Stored(sequence, def)))
  }

  /** Check the readiness and commit. */
  function Commit(s: Chain, sequence: int, def: Definition): Chain {
    if Ready(s, sequence, def) then Install(s, sequence, def) else s
  }

  function Call(s: Chain, org: string, def: Definition): Chain {
    if Found(s.committed, def) then s
    else Commit(Approve(s, org, def), Sequence(s.committed, LastApproved(s, org)), def)
  }

  /** All parts of a definition are compared with the last approval. */
  lemma ApprovedMeans(last: Stored, def: Definition)
    ensures IsApproved(last, def) <==> last.def == def
  {
  }

  // ---- Calls that fail or force the commit ----

  datatype Operation =
    QueryCommittedOp | QueryInstalledOp | QueryApprovedOp | ApproveOp | ReadinessOp | CommitOp | InitOp

  /** An operation that reports an error; it may have taken effect on the ledger all the same. */
  datatype Fault = Fault(op: Operation, effective: bool)

  datatype Package = Package(lbl: string, id: string)

  /**
    How one try to have the commit endorsed ends: well; with payloads that do not match, and endorsers chosen anew; or
    with another error, which may be one of choosing anew.
   */
  datatype Try = Endorsed | Mismatch | TryError

  /**
    What a call meets outside the ledger: the packages installed on the peer, its tries to commit, and a fault, if any.
   */
  datatype Outside = Outside(installed: seq<Package>, tries: seq<Try>, fault: Option<Fault>)

  const TRY_COUNT := 3

  /** The identifier of the first package of that label. */
  function PackageFor(installed: seq<Package>, lbl: string): Option<string> {
    if installed == [] then None
    else if installed[0].lbl == lbl then Some(installed[0].id)
    else PackageFor(installed[1..], lbl)
  }

  /** Within the tries allowed, payloads fail to match a number of times, and then the commit is endorsed. */
  ghost predicate EndorsedInTime(tries: seq<Try>) {
    exists n :: && 0 <= n < TRY_COUNT && n < |tries| && tries[n] == Endorsed
                && forall m | 0 <= m < n :: tries[m] == Mismatch
  }

  /** Payloads fail to match in all the tries allowed. */
  predicate NeverMatches(tries: seq<Try>) {
    |tries| >= TRY_COUNT && forall m | 0 <= m < TRY_COUNT :: tries[m] == Mismatch
  }

  predicate FailsAt(fault: Option<Fault>, op: Operation) {
    fault.Some? && fault.value.op == op
  }

  ghost predicate Fails(out: Outside, lbl: string, op: Operation) {
    || FailsAt(out.fault, op)
    || (op == QueryInstalledOp && PackageFor(out.installed, lbl).None?)
    || (op == CommitOp && !EndorsedInTime(out.tries))
  }

  ghost predicate TakesEffect(out: Outside, op: Operation) {
    out.fault.Some? && out.fault.value.effective && (op == CommitOp ==> EndorsedInTime(out.tries))
  }

  /** The call gets as far as this operation if nothing before it fails. */
  predicate Attempts(s: Chain, org: string, def: Definition, force: bool, op: Operation) {
    var commits := force || Ready(Approve(s, org, def), Sequence(s.committed, LastApproved(s, org)), def);
    match op
    case QueryCommittedOp => true
    case QueryInstalledOp => true
    case QueryApprovedOp => !Found(s.committed, def)
    case ApproveOp => !Found(s.committed, def) && !IsApproved(LastApproved(s, org), def)
    case ReadinessOp => !Found(s.committed, def)
    case CommitOp => !Found(s.committed, def) && commits
    case InitOp => def.initRequired && (Found(s.committed, def) || commits)
  }

  /**
    How far a call gets, in terms of what is stored; the commit is due if it is forced, or if it makes all approvals
    agree.
   */
  lemma AttemptsMeans(s: Chain, org: string, def: Definition, force: bool)
    ensures Attempts(s, org, def, force, QueryCommittedOp) && Attempts(s, org, def, force, QueryInstalledOp)
    ensures var found := s.committed.Some? && s.committed.value.def.version == def.version
                         && s.committed.value.def.initRequired == def.initRequired;
            var due := !found && (force || forall o | o in s.orgs ::
                                    && o in Approve(s, org, def).approvals
                                    && Approve(s, org, def).approvals[o]
                                    == Stored(Sequence(s.committed, LastApproved(s, org)), def));
            && (Attempts(s, org, def, force, QueryApprovedOp) <==> !found)
            && (Attempts(s, org, def, force, ApproveOp) <==> !found && LastApproved(s, org).def != def)
            && (Attempts(s, org, def, force, ReadinessOp) <==> !found)
            && (Attempts(s, org, def, force, CommitOp) <==> due)
            && (Attempts(s, org, def, force, InitOp) <==> def.initRequired && (found || due))
  {
  }

  /** The order in which operations are attempted. */
  function Rank(op: Operation): nat {
    match op
    case QueryCommittedOp => 0
    case QueryInstalledOp => 1
    case QueryApprovedOp => 2
    case ApproveOp => 3
    case ReadinessOp => 4
    case CommitOp => 5
    case InitOp => 6
  }

  /** The operation at which the call fails, if any. */
  ghost function FailureOf(s: Chain, org: string, def: Definition, force: bool, out: Outside,
                           lbl: string): Option<Operation> {
    if Fails(out, lbl, QueryCommittedOp) then Some(QueryCommittedOp)
    else if Fails(out, lbl, QueryInstalledOp) then Some(QueryInstalledOp)
    else if Found(s.committed, def) then (if def.initRequired && Fails(out, lbl, InitOp) then Some(InitOp) else None)
    else if Fails(out, lbl, QueryApprovedOp) then Some(QueryApprovedOp)
    else if !IsApproved(LastApproved(s, org), def) && Fails(out, lbl, ApproveOp) then Some(ApproveOp)
    else if Fails(out, lbl, ReadinessOp) then Some(ReadinessOp)
    else if !force && !Ready(Approve(s, org, def), Sequence(s.committed, LastApproved(s, org)), def) then None
    else if Fails(out, lbl, CommitOp) then Some(CommitOp)
    else if def.initRequired && Fails(out, lbl, InitOp) then Some(InitOp)
    else None
  }

  /** A call fails exactly at the first of the operations it attempts that fails, and succeeds if none does. */
  lemma FirstFailure(s: Chain, org: string, def: Definition, force: bool, out: Outside, lbl: string, op: Operation)
    ensures FailureOf(s, org, def, force, out, lbl) == Some(op) <==>
            && Attempts(s, org, def, force, op) && Fails(out, lbl, op)
            && forall p: Operation | Rank(p) < Rank(op) && Attempts(s, org, def, force, p) :: !Fails(out, lbl, p)
    ensures FailureOf(s, org, def, force, out, lbl) == None <==>
            forall p: Operation | Attempts(s, org, def, force, p) :: !Fails(out, lbl, p)
  {
    hide Fails, Ready, Approve, Sequence, IsApproved, Found;
    var failure := FailureOf(s, org, def, force, out, lbl);
    assert failure.Some? ==> Attempts(s, org, def, force, failure.value) && Fails(out, lbl, failure.value);
  }

  /**
    What a call leaves behind when it fails at an operation: all that it did before, and that operation if it took
    effect.
   */
  function Failed(s: Chain, org: string, def: Definition, force: bool, op: Operation, effective: bool): Chain {
    var a := Approve(s, org, def);
    match op
    case QueryCommittedOp => s
    case QueryInstalledOp => s
    case QueryApprovedOp => s
    case ApproveOp => if effective then a else s
    case ReadinessOp => a
    case CommitOp => if effective then Install(a, Sequence(s.committed, LastApproved(s, org)), def) else a
    case InitOp => if force then ForcedCall(s, org, def) else Call(s, org, def)
  }

  function ForcedCall(s: Chain, org: string, def: Definition): Chain {
    if Found(s.committed, def) then s
    else Install(Approve(s, org, def), Sequence(s.committed, LastApproved(s, org)), def)
  }

  /** A call touches no approval but the caller's own. */
  ghost predicate OthersKept(s: Chain, t: Chain, org: string) {
    && t.orgs == s.orgs
    && (forall o | o != org :: o in t.approvals <==> o in s.approvals)
    && (forall o | o != org && o in s.approvals && o in t.approvals :: t.approvals[o] == s.approvals[o])
  }

  /** The caller's own approval is for def: the one it had, or a new one at this sequence. */
  ghost predicate OwnApproved(s: Chain, t: Chain, org: string, sequence: int, def: Definition) {
    if LastApproved(s, org).def == def then LastApproved(t, org) == LastApproved(s, org)
    else org in t.approvals && t.approvals[org] == Stored(sequence, def)
  }

  /** What a call does, in terms of what is stored. */
  lemma CallMeans(s: Chain, org: string, def: Definition)
    ensures Found(s.committed, def) ==> Call(s, org, def) == ForcedCall(s, org, def) == s
    ensures !Found(s.committed, def) ==>
              var t, q := Call(s, org, def), Sequence(s.committed, LastApproved(s, org));
              && OthersKept(s, t, org) && OwnApproved(s, t, org, q, def)
              && t.committed == (if forall o | o in s.orgs :: o in t.approvals && t.approvals[o] == Stored(q, def)
                                 then Some(Stored(q, def)) else s.committed)
    ensures !Found(s.committed, def) ==>
              var t, q := ForcedCall(s, org, def), Sequence(s.committed, LastApproved(s, org));
              && OthersKept(s, t, org) && OwnApproved(s, t, org, q, def)
              && t.committed == Some(Stored(q, def))
  {
  }

  /**
    What a failed call leaves behind, in terms of what is stored; it has got beyond the committed definitions if op is a
    later one.
   */
  lemma FailedMeans(s: Chain, org: string, def: Definition, force: bool, op: Operation, effective: bool)
    requires Attempts(s, org, def, force, op)
    ensures var t, q := Failed(s, org, def, force, op, effective), Sequence(s.committed, LastApproved(s, org));
            && OthersKept(s, t, org)
            && (op.QueryCommittedOp? || op.QueryInstalledOp? || op.QueryApprovedOp? ==> t == s)
            && (op.ApproveOp? && !effective ==> t == s)
            && ((op.ApproveOp? && effective) || op.ReadinessOp? || op.CommitOp? ==> OwnApproved(s, t, org, q, def))
            && (op.ApproveOp? || op.ReadinessOp? || (op.CommitOp? && !effective) ==> t.committed == s.committed)
            && (op.CommitOp? && effective ==> t.committed == Some(Stored(q, def)))
            && (op.InitOp? ==> t == if force then ForcedCall(s, org, def) else Call(s, org, def))
            && (op.InitOp? ==> Found(t.committed, def))
  {
  }

  // ---- The scans ----

  predicate Lists(list: seq<Committed>, committed: map<string, Stored>) {
    && (forall i | 0 <= i < |list| :: list[i].name in committed && committed[list[i].name] == list[i].stored)
    && (forall name | name in committed :: exists i :: 0 <= i < |list| && list[i].name == name)
  }

  function Lookup(committed: map<string, Stored>, name: string): Option<Stored> {
    if name in committed then Some(committed[name]) else None
  }

  method FoundCommitted(name: string, def: Definition, list: seq<Committed>, ghost committed: map<string, Stored>)
    returns (found: bool)
    requires Lists(list, committed)
    ensures found <==> Found(Lookup(committed, name), def)
    ensures found <==> && name in committed && committed[name].def.version == def.version
                       && committed[name].def.initRequired == def.initRequired
  {
    found := false;
    for i := 0 to |list|
      invariant !found
      invariant forall j | 0 <= j < i ::
        !(list[j].name == name && list[j].stored.def.version == def.version
          && list[j].stored.def.initRequired == def.initRequired)
    {
      if list[i].name == name && list[i].stored.def.version == def.version
        && list[i].stored.def.initRequired == def.initRequired
      {
        found := true;
        break;
      }
    }
  }

  method CalculateSequence(name: string, last: Stored, list: seq<Committed>, ghost committed: map<string, Stored>)
    returns (sequence: int)
    requires Lists(list, committed)
    ensures sequence == Sequence(Lookup(committed, name), last)
    ensures name in committed && committed[name].sequence == last.sequence ==> sequence == last.sequence + 1
    ensures !(name in committed && committed[name].sequence == last.sequence) ==>
              sequence == if last.sequence == 0 then 1 else last.sequence
  {
    for i := 0 to |list|
      invariant forall j | 0 <= j < i :: !(list[j].name == name && list[j].stored.sequence == last.sequence)
    {
      if list[i].name == name && list[i].stored.sequence == last.sequence {
        return list[i].stored.sequence + 1;
      }
    }
    if last.sequence == 0 {
      return 1;
    }
    return last.sequence;
  }

  method IsReadyToCommit(approvals: map<string, bool>) returns (ready: bool)
    ensures ready <==> forall o | o in approvals :: approvals[o]
  {
    var approved := 0;
    var todo := approvals.Keys;
    ghost var yes: set<string> := {};
    while todo != {}
      invariant todo <= approvals.Keys
      invariant yes == set o | o in approvals && o !in todo && approvals[o]
      invariant approved == |yes|
      decreases todo
    {
      var o :| o in todo;
      todo := todo - {o};
      if approvals[o] {
        yes := yes + {o};
        approved := approved + 1;
      }
    }
    ready := |approvals.Keys| == approved;
    AllWhenCounted(approvals.Keys, yes);
  }

  lemma AllWhenCounted(all: set<string>, yes: set<string>)
    requires yes <= all
    ensures |all| == |yes| <==> all == yes
  {
    assert all == yes + (all - yes);
    assert |all| == |yes| + |all - yes|;
  }

  // ---- The call ----

  function ApprovalsOf(orgs: set<string>, approvals: map<(string, string), Stored>, name: string): map<string, Stored> {
    map o | o in orgs && (o, name) in approvals :: approvals[(o, name)]
  }

  lemma OneApprovalMore(orgs: set<string>, approvals: map<(string, string), Stored>, org: string, name: string,
                        stored: Stored, other: string)
    requires org in orgs
    ensures ApprovalsOf(orgs, approvals[(org, name) := stored], other)
         == if other == name then ApprovalsOf(orgs, approvals, name)[org := stored]
           else ApprovalsOf(orgs, approvals, other)
  {
    var x, y := ApprovalsOf(orgs, approvals[(org, name) := stored], other), ApprovalsOf(orgs, approvals, other);
    if other != name {
      forall o ensures o in x <==> o in y {
        assert (o, other) != (org, name);
      }
    }
  }

  class Ledger {
    const orgs: set<string>
    var committed: map<string, Stored>
    var approvals: map<(string, string), Stored>

    constructor (orgs: set<string>)
      ensures this.orgs == orgs && committed == map[] && approvals == map[]
    {
      this.orgs := orgs;
      committed := map[];
      approvals := map[];
    }

    ghost function View(name: string): Chain
      reads this
    {
      Chain(orgs, Lookup(committed, name), ApprovalsOf(orgs, approvals, name))
    }

    method QueryCommitted() returns (list: seq<Committed>)
      ensures Lists(list, committed)
    {
      list := [];
      var todo := committed.Keys;
      while todo != {}
        invariant todo <= committed.Keys
        invariant forall i | 0 <= i < |list| :: list[i].name in committed && committed[list[i].name] == list[i].stored
        invariant forall name | name in committed && name !in todo ::
                  exists i :: 0 <= i < |list| && list[i].name == name
        decreases todo
      {
        var name :| name in todo;
        ghost var before := list;
        list := list + [Committed(name, committed[name])];
        assert list[|before|].name == name;
        forall n | n in committed && n !in todo ensures exists i :: 0 <= i < |list| && list[i].name == n {
          var i :| 0 <= i < |before| && before[i].name == n;
          assert list[i].name == n;
        }
        todo := todo - {name};
      }
    }

    method QueryApproved(org: string, name: string) returns (last: Stored)
      requires org in orgs
      ensures last == LastApproved(View(name), org)
      ensures last == if (org, name) in approvals then approvals[(org, name)] else Stored(0, Definition("", [], false))
    {
      last := if (org, name) in approvals then approvals[(org, name)] else NOTHING;
    }

    method ApproveForMyOrg(org: string, name: string, sequence: int, def: Definition)
      requires org in orgs
      modifies this`approvals
      ensures View(name) == old(View(name)).(approvals := old(View(name)).approvals[org := Stored(sequence, def)])
      ensures approvals == old(approvals)[(org, name) := Stored(sequence, def)]
      ensures forall other | other != name :: View(other) == old(View(other))
    {
      hide ApprovalsOf;
      forall other {
        OneApprovalMore(orgs, approvals, org, name, Stored(sequence, def), other);
      }
      approvals := approvals[(org, name) := Stored(sequence, def)];
    }

    method CheckCommitReadiness(name: string, sequence: int, def: Definition) returns (ready: map<string, bool>)
      ensures ready.Keys == orgs
      ensures forall o | o in orgs ::
                ready[o] <==> o in View(name).approvals && View(name).approvals[o] == Stored(sequence, def)
    {
      ready := map o | o in orgs :: (o, name) in approvals && approvals[(o, name)] == Stored(sequence, def);
    }

    method CommitDefinition(name: string, sequence: int, def: Definition)
      modifies this`committed
      ensures View(name) == old(View(name)).(committed := Some(Stored(sequence, def)))
      ensures committed == old(committed)[name := Stored(sequence, def)]
      ensures forall other | other != name :: View(other) == old(View(other))
    {
      committed := committed[name := Stored(sequence, def)];
    }
  }

  datatype Request = Request(name: string, version: string, lbl: string, policy: Bytes, initRequired: bool,
                             initArgs: seq<string>, commitForce: bool)

  datatype Response = Response(committed: bool, approvals: map<string, bool>)

  /** The part of a package identifier before the first colon. */
  function VersionOf(packageId: string): string {
    if packageId == "" || packageId[0] == ':' then "" else [packageId[0]] + VersionOf(packageId[1..])
  }

  function Requested(req: Request, installed: seq<Package>): Definition {
    var id := PackageFor(installed, req.lbl);
    Definition(if req.version == "" && id.Some? then VersionOf(id.value) else req.version,
               req.policy, req.initRequired || |req.initArgs| > 0)
  }

  /** The version of a package identifier is what precedes the first colon. */
  lemma {:induction false} VersionIsPrefix(packageId: string)
    ensures VersionOf(packageId) <= packageId && ':' !in VersionOf(packageId)
    ensures var n := |VersionOf(packageId)|; n < |packageId| ==> packageId[n] == ':'
  {
    if packageId == "" || packageId[0] == ':' {
    } else {
      VersionIsPrefix(packageId[1..]);
    }
  }

  /**
    The definition asked for: the given version, or that of the package; initialisation also where there are arguments.
   */
  lemma RequestedMeans(req: Request, installed: seq<Package>)
    ensures var def := Requested(req, installed);
            && (req.version != "" ==> def.version == req.version)
            && (req.version == "" && PackageFor(installed, req.lbl).Some? ==>
                  def.version == VersionOf(PackageFor(installed, req.lbl).value))
            && def.policy == req.policy
            && (def.initRequired <==> req.initRequired || req.initArgs != [])
  {
  }

  method GetPackageIdByLabel(installed: seq<Package>, lbl: string) returns (id: Option<string>)
    ensures id == PackageFor(installed, lbl)
    ensures id == None <==> forall i | 0 <= i < |installed| :: installed[i].lbl != lbl
    ensures forall i | 0 <= i < |installed| && installed[i].lbl == lbl
            && (forall k | 0 <= k < i :: installed[k].lbl != lbl) ::
              id == Some(installed[i].id)
  {
    for i := 0 to |installed|
      invariant PackageFor(installed, lbl) == PackageFor(installed[i..], lbl)
      invariant forall k | 0 <= k < i :: installed[k].lbl != lbl
    {
      assert installed[i..][1..] == installed[i + 1..];
      if installed[i].lbl == lbl {
        return Some(installed[i].id);
      }
    }
    return None;
  }

  /** After the tries to have the commit endorsed: an envelope, an error, or neither. */
  datatype Endorsement = Envelope | NoEnvelope | EndorseError

  /**
    The tries to have the commit endorsed: again while payloads do not match, up to the limit. The last
    mismatch is forgotten once endorsers have been chosen anew, so that the call then goes on with no envelope.
   */
  method EndorseCommit(tries: seq<Try>) returns (r: Endorsement)
    ensures r == Envelope <==> EndorsedInTime(tries)
    ensures r == NoEnvelope <==> NeverMatches(tries)
  {
    for n := 0 to TRY_COUNT
      invariant n <= |tries|
      invariant forall m | 0 <= m < n :: tries[m] == Mismatch
    {
      if n >= |tries| {
        return EndorseError;
      }
      if tries[n] != Mismatch {
        return if tries[n] == Endorsed then Envelope else EndorseError;
      }
    }
    return NoEnvelope;
  }

  /** One call, with nobody else around; out is all that it meets outside the ledger. */
  method LifecycleFull(ledger: Ledger, org: string, req: Request, out: Outside) returns (r: Result<Response, Operation>)
    requires org in ledger.orgs
    modifies ledger
    ensures forall other | other != req.name :: ledger.View(other) == old(ledger.View(other))
    ensures var s, def := old(ledger.View(req.name)), Requested(req, out.installed);
            && FailureOf(s, org, def, req.commitForce, out, req.lbl) == (if r.Err? then Some(r.error) else None)
            && ledger.View(req.name)
            == (if r.Err? then Failed(s, org, def, req.commitForce, r.error, TakesEffect(out, r.error))
                else if req.commitForce then ForcedCall(s, org, def)
                else Call(s, org, def))
    ensures r.Ok? && r.value.committed ==> Found(ledger.View(req.name).committed, Requested(req, out.installed))
    ensures r.Ok? && !r.value.committed ==>
      && !req.commitForce
      && ledger.View(req.name).committed == old(ledger.View(req.name)).committed
      && r.value.approvals.Keys == ledger.orgs
      && exists o :: o in r.value.approvals && !r.value.approvals[o]
    ensures r.Ok? && !r.value.committed ==>
      var s, t := old(ledger.View(req.name)), ledger.View(req.name);
      var goal := Stored(Sequence(s.committed, LastApproved(s, org)), Requested(req, out.installed));
      forall o | o in ledger.orgs :: r.value.approvals[o] <==> o in t.approvals && t.approvals[o] == goal
  {
    hide EndorsedInTime, PackageFor, VersionOf, Ready, Approve, IsApproved, Sequence, ApprovalsOf, Lists, LastApproved,
         Attempts;
    if FailsAt(out.fault, QueryCommittedOp) {
      return Err(QueryCommittedOp);
    }
    var committed := ledger.QueryCommitted();
    var id := GetPackageIdByLabel(out.installed, req.lbl);
    if FailsAt(out.fault, QueryInstalledOp) || id == None {
      return Err(QueryInstalledOp);
    }
    var def := Definition(if req.version == "" then VersionOf(id.value) else req.version,
                          req.policy, req.initRequired || |req.initArgs| > 0);
    var found := FoundCommitted(req.name, def, committed, ledger.committed);
    if found {
      if def.initRequired && FailsAt(out.fault, InitOp) {
        return Err(InitOp);
      }
      return Ok(Response(true, map[]));
    }
    var approved := QueryAndApprove(ledger, org, req.name, def, committed, out);
    if approved.Err? {
      return Err(approved.error);
    }
    r := CheckAndCommit(ledger, req.name, approved.value, def, req.commitForce, out);
  }

  /** The middle part of a call: the sequence it goes for, and the approval unless there is one. */
  method QueryAndApprove(ledger: Ledger, org: string, name: string, def: Definition, committed: seq<Committed>,
                         out: Outside)
    returns (r: Result<int, Operation>)
    requires org in ledger.orgs && Lists(committed, ledger.committed)
    modifies ledger`approvals
    ensures forall other | other != name :: ledger.View(other) == old(ledger.View(other))
    ensures var s := old(ledger.View(name));
            r == if FailsAt(out.fault, QueryApprovedOp) then Err(QueryApprovedOp)
                 else if !IsApproved(LastApproved(s, org), def) && FailsAt(out.fault, ApproveOp) then Err(ApproveOp)
                 else Ok(Sequence(s.committed, LastApproved(s, org)))
    ensures ledger.View(name)
         == if r == Err(QueryApprovedOp) || (r == Err(ApproveOp) && !out.fault.value.effective) then
           old(ledger.View(name))
            else Approve(old(ledger.View(name)), org, def)
  {
    if FailsAt(out.fault, QueryApprovedOp) {
      return Err(QueryApprovedOp);
    }
    var last := ledger.QueryApproved(org, name);
    var sequence := CalculateSequence(name, last, committed, ledger.committed);
    if !IsApproved(last, def) {
      if !FailsAt(out.fault, ApproveOp) || out.fault.value.effective {
        ledger.ApproveForMyOrg(org, name, sequence, def);
      }
      if FailsAt(out.fault, ApproveOp) {
        return Err(ApproveOp);
      }
    }
    return Ok(sequence);
  }

  /** The rest of a call: the readiness check, and the commit if it is due. */
  method CheckAndCommit(ledger: Ledger, name: string, sequence: int, def: Definition, force: bool, out: Outside)
    returns (r: Result<Response, Operation>)
    modifies ledger`committed
    ensures forall other | other != name :: ledger.View(other) == old(ledger.View(other))
    ensures var s := old(ledger.View(name)); var due := force || Ready(s, sequence, def);
            && (FailsAt(out.fault, ReadinessOp) ==> r == Err(ReadinessOp))
            && (!FailsAt(out.fault, ReadinessOp) && !due ==> r.Ok? && !r.value.committed)
            && (!FailsAt(out.fault, ReadinessOp) && due ==>
                  r == if FailsAt(out.fault, CommitOp) || !EndorsedInTime(out.tries) then Err(CommitOp)
                       else if def.initRequired && FailsAt(out.fault, InitOp) then Err(InitOp)
                       else Ok(Response(true, map[])))
            && ledger.View(name)
            == (if r == Err(ReadinessOp) || (r.Ok? && !r.value.committed)
                || (r == Err(CommitOp) && !TakesEffect(out, CommitOp))
                then s else Install(s, sequence, def))
    ensures r.Ok? && !r.value.committed ==>
              && !force && r.value.approvals.Keys == ledger.orgs
              && exists o :: o in r.value.approvals && !r.value.approvals[o]
    ensures r.Ok? && !r.value.committed ==>
              var t := ledger.View(name);
              forall o | o in ledger.orgs ::
                r.value.approvals[o] <==> o in t.approvals && t.approvals[o] == Stored(sequence, def)
  {
    hide EndorsedInTime;
    if FailsAt(out.fault, ReadinessOp) {
      return Err(ReadinessOp);
    }
    var approvals := ledger.CheckCommitReadiness(name, sequence, def);
    var ready := IsReadyToCommit(approvals);
    if !force && !ready {
      return Ok(Response(false, approvals));
    }
    r := CommitAndInit(ledger, name, sequence, def, out);
  }

  /**
    The last part of a call: the commit, and the initialisation of the chaincode, which leaves the definitions alone.
   */
  method CommitAndInit(ledger: Ledger, name: string, sequence: int, def: Definition, out: Outside)
    returns (r: Result<Response, Operation>)
    modifies ledger`committed
    ensures forall other | other != name :: ledger.View(other) == old(ledger.View(other))
    ensures r == if FailsAt(out.fault, CommitOp) || !EndorsedInTime(out.tries) then Err(CommitOp)
                 else if def.initRequired && FailsAt(out.fault, InitOp) then Err(InitOp)
                 else Ok(Response(true, map[]))
    ensures ledger.View(name) == if r == Err(CommitOp) && !TakesEffect(out, CommitOp) then old(ledger.View(name))
                                 else Install(old(ledger.View(name)), sequence, def)
  {
    hide EndorsedInTime;
    var endorsement := EndorseCommit(out.tries);
    if endorsement != Envelope {
      // Without an envelope there is nothing that an orderer could accept.
      return Err(CommitOp);
    }
    if !FailsAt(out.fault, CommitOp) || out.fault.value.effective {
      ledger.CommitDefinition(name, sequence, def);
    }
    if FailsAt(out.fault, CommitOp) {
      return Err(CommitOp);
    }
    if def.initRequired && FailsAt(out.fault, InitOp) {
      return Err(InitOp);
    }
    return Ok(Response(true, map[]));
  }

  // ---- The invariant ----

  /**
    The invariant that makes the three partial tests sound together: an organisation's last approval
    is at the committed sequence or one ahead; in the first case it is the committed definition itself.
   */
  ghost predicate Inv(s: Chain) {
    && s.approvals.Keys <= s.orgs
    && (s.committed.Some? ==> s.committed.value.sequence >= 1)
    && forall o | o in s.orgs ::
      && CommittedSequence(s) <= LastApproved(s, o).sequence <= CommittedSequence(s) + 1
      && (o in s.approvals ==> s.approvals[o].sequence >= 1)
      && (s.committed.Some? && LastApproved(s, o).sequence == CommittedSequence(s) ==>
          LastApproved(s, o) == s.committed.value)
  }

  /** Whatever is asked for, the computed sequence is the one after the committed one. */
  lemma SequenceIsNext(s: Chain, org: string)
    requires Inv(s) && org in s.orgs
    ensures Sequence(s.committed, LastApproved(s, org)) == CommittedSequence(s) + 1
  {
  }

  lemma ApproveInv(s: Chain, org: string, def: Definition)
    requires Inv(s) && org in s.orgs
    ensures Inv(Approve(s, org, def))
  {
    SequenceIsNext(s, org);
  }

  /**
    A commit installs the definition that every organisation has approved, one sequence ahead; or it changes nothing.
   */
  lemma CommitRaisesByOne(s: Chain, org: string, sequence: int, def: Definition)
    requires Inv(s) && org in s.orgs
    ensures Inv(Commit(s, sequence, def))
    ensures Commit(s, sequence, def) != s ==>
              && sequence == CommittedSequence(s) + 1
              && Commit(s, sequence, def) == s.(committed := Some(Stored(sequence, def)))
              && forall o | o in s.orgs :: o in s.approvals && s.approvals[o] == Stored(sequence, def)
  {
    if Ready(s, sequence, def) {
      assert LastApproved(s, org) == Stored(sequence, def);
    }
  }

  /**
    The caller's own approval is stored at the computed sequence, exactly unless the request is blank and nothing was
    approved before.
   */
  lemma OwnApprovalStoredIff(s: Chain, org: string, def: Definition)
    requires Inv(s) && org in s.orgs && !Found(s.committed, def)
    ensures (org in Approve(s, org, def).approvals
             && Approve(s, org, def).approvals[org] == Stored(CommittedSequence(s) + 1, def))
       <==> def != BLANK || org in s.approvals
  {
    SequenceIsNext(s, org);
  }

  // ---- Progress ----

  function CallAll(s: Chain, order: seq<string>, def: Definition): Chain {
    if order == [] then s
    else Call(CallAll(s, order[..|order| - 1], def), order[|order| - 1], def)
  }

  /** Repeating a call changes nothing. */
  lemma CallTwice(s: Chain, org: string, def: Definition)
    requires Inv(s) && org in s.orgs
    ensures Call(Call(s, org, def), org, def) == Call(s, org, def)
  {
    if !Found(s.committed, def) {
      var a, next := Approve(s, org, def), CommittedSequence(s) + 1;
      SequenceIsNext(s, org);
      ApproveInv(s, org, def);
      SequenceIsNext(a, org);
      assert Approve(a, org, def) == a;
      assert Call(s, org, def) == Commit(a, next, def);
    }
  }

  // ---- The outcome of a round of calls, from any state ----

  /** What holds on the ledger whatever the calls do to each other. */
  ghost predicate Sane(s: Chain) {
    && s.approvals.Keys <= s.orgs
    && (forall o | o in s.approvals :: s.approvals[o].sequence >= 1)
    && (s.committed.Some? ==> s.committed.value.sequence >= 1 && s.orgs <= s.approvals.Keys)
  }

  /** The sequence at which the organisation will have approved def once it has called for it. */
  function Aim(s: Chain, org: string, def: Definition): int {
    var last := LastApproved(s, org);
    if IsApproved(last, def) then last.sequence else Sequence(s.committed, last)
  }

  ghost predicate Agreed(s: Chain, def: Definition, x: int) {
    forall o | o in s.orgs :: Aim(s, o, def) == x
  }

  /** The organisation has approved def where it aims. */
  predicate OnAim(s: Chain, t: Chain, org: string, def: Definition) {
    LastApproved(t, org) == Stored(Aim(s, org, def), def)
  }

  /**
    From s on, the organisations have approved def where they aim or nothing, and def has been committed or nothing.
   */
  ghost predicate Pursued(s: Chain, t: Chain, def: Definition) {
    && Sane(t) && t.orgs == s.orgs
    && (forall o | o in s.orgs :: OnAim(s, t, o, def) || LastApproved(t, o) == LastApproved(s, o))
    && (t.committed == s.committed || Settled(s, t, def))
  }

  /** def is committed where all organisations aim. */
  ghost predicate Settled(s: Chain, t: Chain, def: Definition) {
    && t.committed.Some? && t.committed.value.def == def
    && t.committed.value.sequence != CommittedSequence(s)
    && Agreed(s, def, t.committed.value.sequence)
  }

  /** No readiness check for def can succeed where a commit is possible. */
  ghost predicate NotReady(s: Chain, t: Chain, def: Definition) {
    forall x | x != CommittedSequence(s) && Agreed(s, def, x) :: !Ready(t, x, def)
  }

  /** A first approval goes to a sequence at which nothing is committed. */
  lemma FirstAim(s: Chain, org: string, def: Definition)
    requires Sane(s) && org in s.orgs && !IsApproved(LastApproved(s, org), def)
    ensures Aim(s, org, def) >= 1 && Aim(s, org, def) != CommittedSequence(s)
  {
  }

  /**
    Having approved, a call checks the readiness where the organisation aims; unless something is committed there, or
    nothing is approved.
   */
  lemma CheckedSequence(s: Chain, t: Chain, org: string, def: Definition)
    requires Sane(s) && org in s.orgs && OnAim(s, t, org, def)
    ensures var x := Aim(s, org, def);
            Sequence(s.committed, LastApproved(t, org)) == x <==> x != CommittedSequence(s) && x != 0
    ensures Aim(s, org, def) >= 0 && Sequence(s.committed, LastApproved(t, org)) >= 1
  {
  }

  /** Readiness means that all organisations agree. */
  lemma ReadyIsAgreed(s: Chain, t: Chain, def: Definition, x: int)
    requires Pursued(s, t, def) && Ready(t, x, def)
    ensures Agreed(s, def, x)
  {
    forall o | o in s.orgs ensures Aim(s, o, def) == x {
      assert LastApproved(t, o) == Stored(x, def);
    }
  }

  lemma AgreedIsReady(s: Chain, t: Chain, def: Definition, x: int)
    requires Sane(s) && t.orgs == s.orgs != {} && x != CommittedSequence(s) && Agreed(s, def, x)
    requires forall o | o in s.orgs :: OnAim(s, t, o, def)
    ensures Ready(t, x, def)
  {
    forall o | o in s.orgs ensures o in t.approvals && t.approvals[o] == Stored(x, def) {
      CheckedSequence(s, t, o, def);
    }
  }

  lemma StoreOnAim(s: Chain, t: Chain, org: string, def: Definition)
    requires Sane(s) && Pursued(s, t, def) && org in s.orgs && !IsApproved(LastApproved(s, org), def)
    ensures var u := t.(approvals := t.approvals[org := Stored(Aim(s, org, def), def)]);
            && Pursued(s, u, def) && OnAim(s, u, org, def)
            && forall o | o in s.orgs && OnAim(s, t, o, def) :: OnAim(s, u, o, def)
  {
    FirstAim(s, org, def);
    var u := t.(approvals := t.approvals[org := Stored(Aim(s, org, def), def)]);
    assert forall o | o in s.orgs && o != org :: LastApproved(u, o) == LastApproved(t, o);
  }

  /**
    After some calls: committed where all aim; or not, all callers have approved where they aim, and it is not ready.
   */
  ghost predicate Underway(s: Chain, t: Chain, callers: seq<string>, def: Definition) {
    && Pursued(s, t, def)
    && (t.committed == s.committed ==>
          && (forall o | o in callers :: OnAim(s, t, o, def))
          && (callers != [] ==> NotReady(s, t, def)))
  }

  lemma ApproveOnAim(s: Chain, t: Chain, org: string, def: Definition)
    requires Sane(s) && Pursued(s, t, def) && org in s.orgs && t.committed == s.committed
    ensures var u := Approve(t, org, def);
            && Pursued(s, u, def) && OnAim(s, u, org, def)
            && forall o | o in s.orgs && OnAim(s, t, o, def) :: OnAim(s, u, o, def)
    ensures var x, q := Aim(s, org, def), Sequence(t.committed, LastApproved(t, org));
            q == x <==> x != CommittedSequence(s) && x != 0
  {
    if IsApproved(LastApproved(t, org), def) {
      CheckedSequence(s, t, org, def);
    } else {
      FirstAim(s, org, def);
      StoreOnAim(s, t, org, def);
    }
  }

  lemma OneMoreCall(s: Chain, t: Chain, callers: seq<string>, org: string, def: Definition)
    requires Sane(s) && s.orgs != {} && !Found(s.committed, def)
    requires Underway(s, t, callers, def) && org in s.orgs && forall o | o in callers :: o in s.orgs
    ensures Underway(s, Call(t, org, def), callers + [org], def)
  {
    hide Sane, IsApproved, Sequence, Approve, Ready, Aim;
    if t.committed == s.committed {
      var u, q := Approve(t, org, def), Sequence(t.committed, LastApproved(t, org));
      ApproveOnAim(s, t, org, def);
      ApproveKeeps(t, org, def);
      if Ready(u, q, def) {
        ReadyIsAgreed(s, u, def, q);
        InstallOnAim(s, u, q, def, org);
      } else {
        NotReadyAfterCheck(s, u, org, q, def);
      }
    }
  }

  lemma ApproveKeeps(s: Chain, org: string, def: Definition)
    ensures Approve(s, org, def).committed == s.committed && Approve(s, org, def).orgs == s.orgs
  {
  }

  /** A commit after a successful check settles the matter. */
  lemma InstallOnAim(s: Chain, t: Chain, q: int, def: Definition, org: string)
    requires Sane(s) && Pursued(s, t, def) && org in s.orgs && OnAim(s, t, org, def)
    requires Ready(t, q, def)
    requires q == Aim(s, org, def) <==> Aim(s, org, def) != CommittedSequence(s) && Aim(s, org, def) != 0
    ensures q != CommittedSequence(s) && Agreed(s, def, q)
    ensures Pursued(s, Install(t, q, def), def) && Settled(s, Install(t, q, def), def)
  {
    ReadyIsAgreed(s, t, def, q);
    assert t.approvals[org] == Stored(q, def);
    assert forall o | o in s.orgs :: LastApproved(Install(t, q, def), o) == LastApproved(t, o);
  }

  /** A check that fails, although the caller has approved, shows that nothing can be committed yet. */
  lemma NotReadyAfterCheck(s: Chain, t: Chain, org: string, q: int, def: Definition)
    requires Sane(s) && Pursued(s, t, def) && org in s.orgs
    requires !Ready(t, q, def)
    requires q == Aim(s, org, def) <==> Aim(s, org, def) != CommittedSequence(s) && Aim(s, org, def) != 0
    ensures NotReady(s, t, def)
  {
    forall x | x != CommittedSequence(s) && Agreed(s, def, x) ensures !Ready(t, x, def) {
      assert Aim(s, org, def) == x;
      assert org in t.approvals ==> t.approvals[org].sequence != 0;
    }
  }

  lemma {:induction false} CallsProgress(s: Chain, order: seq<string>, def: Definition)
    requires Sane(s) && s.orgs != {} && !Found(s.committed, def)
    requires forall o | o in order :: o in s.orgs
    ensures Underway(s, CallAll(s, order, def), order, def)
  {
    if order == [] {
    } else {
      var front, org := order[..|order| - 1], order[|order| - 1];
      CallsProgress(s, front, def);
      OneMoreCall(s, CallAll(s, front, def), front, org, def);
      assert order == front + [org];
    }
  }

  /**
    From every state of the ledger, after one call by each organisation, in any order, def is committed exactly where
    all aim, if all aim at one sequence other than the committed one; and otherwise the committed definition stays.
   */
  lemma OutcomeOfCalls(s: Chain, order: seq<string>, def: Definition)
    requires Sane(s) && s.orgs != {} && !Found(s.committed, def)
    requires s.orgs == set o | o in order
    ensures var t, c := CallAll(s, order, def), CommittedSequence(s);
            && (forall x | x != c && Agreed(s, def, x) :: t.committed == Some(Stored(x, def)))
            && ((forall x | x != c :: !Agreed(s, def, x)) ==> t.committed == s.committed)
            && (t.committed == Some(Stored(c + 1, def)) <==> Agreed(s, def, c + 1))
  {
    var t := CallAll(s, order, def);
    assert order != [];
    CallsProgress(s, order, def);
    SettledOrBlocked(s, t, def);
  }

  /** Once all organisations have approved where they aim, either the matter is settled or it is blocked. */
  lemma SettledOrBlocked(s: Chain, t: Chain, def: Definition)
    requires Sane(s) && s.orgs != {} && Pursued(s, t, def)
    requires t.committed == s.committed ==> NotReady(s, t, def) && forall o | o in s.orgs :: OnAim(s, t, o, def)
    ensures forall x | x != CommittedSequence(s) && Agreed(s, def, x) :: t.committed == Some(Stored(x, def))
    ensures (forall x | x != CommittedSequence(s) :: !Agreed(s, def, x)) ==> t.committed == s.committed
    ensures t.committed == Some(Stored(CommittedSequence(s) + 1, def)) <==> Agreed(s, def, CommittedSequence(s) + 1)
  {
    forall x | x != CommittedSequence(s) && Agreed(s, def, x) ensures t.committed == Some(Stored(x, def)) {
      if t.committed == s.committed {
        AgreedIsReady(s, t, def, x);
        assert false;
      }
      OneAgreement(s, def, x, t.committed.value.sequence);
    }
  }

  lemma OneAgreement(s: Chain, def: Definition, x: int, y: int)
    requires s.orgs != {} && Agreed(s, def, x) && Agreed(s, def, y)
    ensures x == y
  {
    var o :| o in s.orgs;
    assert Aim(s, o, def) == x;
  }

  /** As long as order has been kept, all aim at the next sequence. */
  lemma InvAgreed(s: Chain, def: Definition)
    requires Inv(s) && !Found(s.committed, def) && def != BLANK
    ensures Sane(s) && Agreed(s, def, CommittedSequence(s) + 1)
  {
    forall o | o in s.orgs ensures Aim(s, o, def) == CommittedSequence(s) + 1 {
      SequenceIsNext(s, o);
    }
  }

  /**
    From every state that keeps the invariant, one call by each organisation, in any order, commits the
    requested definition at the next sequence; and from then on such calls change nothing.
   */
  lemma EveryoneCallsOnce(s: Chain, order: seq<string>, def: Definition)
    requires Inv(s) && s.orgs != {} && !Found(s.committed, def) && def != BLANK
    requires s.orgs == set o | o in order
    ensures CallAll(s, order, def).committed == Some(Stored(CommittedSequence(s) + 1, def))
    ensures forall org :: Call(CallAll(s, order, def), org, def) == CallAll(s, order, def)
  {
    InvAgreed(s, def);
    OutcomeOfCalls(s, order, def);
  }

  /**
    In every state, while organisations are calling, a repeated call changes neither approvals nor the committed
    definition.
   */
  lemma RepeatedCallIsIdle(s: Chain, order: seq<string>, def: Definition, org: string)
    requires Sane(s) && s.orgs != {} && !Found(s.committed, def)
    requires forall o | o in order :: o in s.orgs
    requires org in order
    ensures Call(CallAll(s, order, def), org, def) == CallAll(s, order, def)
  {
    CallsProgress(s, order, def);
    var t := CallAll(s, order, def);
    if t.committed == s.committed {
      var q := Sequence(t.committed, LastApproved(t, org));
      CheckedSequence(s, t, org, def);
      if Ready(t, q, def) {
        InstallOnAim(s, t, q, def, org);
        assert false;
      }
    }
  }

  // ---- A state without progress ----

  /**
    An organisation that approved at the committed sequence something else than what was committed, and wants it still.
   */
  ghost predicate Stalled(s: Chain, org: string, def: Definition) {
    && org in s.orgs && org in s.approvals && s.approvals[org] == Stored(CommittedSequence(s), def)
    && s.committed.Some? && CommittedSequence(s) >= 1 && !Found(s.committed, def)
    && forall o | o in s.orgs :: LastApproved(s, o).sequence in {CommittedSequence(s), CommittedSequence(s) + 1}
  }

  /** Such an organisation aims at the committed sequence, so that there is nothing all could agree on. */
  lemma StalledIsBlocked(s: Chain, org: string, def: Definition, x: int)
    requires Stalled(s, org, def) && x != CommittedSequence(s)
    ensures Aim(s, org, def) == CommittedSequence(s) && !Agreed(s, def, x)
  {
    assert Aim(s, org, def) != x;
  }

  /** No number of calls for that definition gets it committed. */
  lemma {:induction false} StalledForever(s: Chain, order: seq<string>, org: string, def: Definition)
    requires Stalled(s, org, def)
    requires forall o | o in order :: o in s.orgs
    ensures Stalled(CallAll(s, order, def), org, def) && CallAll(s, order, def).committed == s.committed
    ensures CallAll(s, order, def).orgs == s.orgs
  {
    if order == [] {
    } else {
      StalledForever(s, order[..|order| - 1], org, def);
      var t, o := CallAll(s, order[..|order| - 1], def), order[|order| - 1];
      assert LastApproved(Approve(t, o, def), org) == Stored(CommittedSequence(s), def);
    }
  }
}

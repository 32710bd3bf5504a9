/** Allocation of consenter identifiers for a BFT orderer list, from the identifiers in the old metadata. */
module Consenters {

  datatype Endpoint = Endpoint(host: string, port: nat)
  datatype Consenter = Consenter(endpoint: Endpoint, id: nat)

  // ---- What the first loop remembers ----

  function MaxId(prior: seq<Consenter>): nat {
    if prior == [] then 0
    else
      var m, last := MaxId(prior[..|prior| - 1]), prior[|prior| - 1];
      if last.id > m then last.id else m
  }

  /** An endpoint is remembered when its identifier exceeds every earlier one; a later such entry replaces it. */
  function Records(prior: seq<Consenter>): map<Endpoint, nat> {
    if prior == [] then map[]
    else
      var front, last := prior[..|prior| - 1], prior[|prior| - 1];
      if last.id > MaxId(front) then Records(front)[last.endpoint := last.id] else Records(front)
  }

  // ---- What the second loop assigns ----

  /** The highest identifier in use once the orderers have been served. */
  function Top(orderers: seq<Endpoint>, top: nat, known: map<Endpoint, nat>): nat {
    if orderers == [] then top
    else Top(orderers[..|orderers| - 1], top, known) + if orderers[|orderers| - 1] in known then 0 else 1
  }

  function Assign(orderers: seq<Endpoint>, top: nat, known: map<Endpoint, nat>): seq<Consenter> {
    if orderers == [] then []
    else
      var front, last := orderers[..|orderers| - 1], orderers[|orderers| - 1];
      Assign(front, top, known) + [Consenter(last, if last in known then known[last] else Top(front, top, known) + 1)]
  }

  function Allocate(prior: seq<Consenter>, orderers: seq<Endpoint>): seq<Consenter> {
    Assign(orderers, MaxId(prior), Records(prior))
  }

  method CreateBftOrderers(prior: seq<Consenter>, orderers: seq<Endpoint>) returns (cons: seq<Consenter>)
    ensures cons == Allocate(prior, orderers)
  {
    var consId: nat := 0;
    var consIdMap: map<Endpoint, nat> := map[];
    for i := 0 to |prior|
      invariant consId == MaxId(prior[..i])
      invariant consIdMap == Records(prior[..i])
    {
      assert prior[..i + 1][..i] == prior[..i];
      if prior[i].id > consId {
        consId := prior[i].id;
        consIdMap := consIdMap[prior[i].endpoint := prior[i].id];
      }
    }
    assert prior[..|prior|] == prior;
    cons := [];
    for i := 0 to |orderers|
      invariant cons == Assign(orderers[..i], MaxId(prior), Records(prior))
      invariant consId == Top(orderers[..i], MaxId(prior), Records(prior))
    {
      assert orderers[..i + 1][..i] == orderers[..i];
      var cId: nat;
      if orderers[i] in consIdMap {
        cId := consIdMap[orderers[i]];
      } else {
        consId := consId + 1;
        cId := consId;
      }
      cons := cons + [Consenter(orderers[i], cId)];
    }
    assert orderers[..|orderers|] == orderers;
  }

  // ---- Facts about the two loops ----

  lemma {:induction false} MaxIdIsMax(prior: seq<Consenter>, i: nat)
    requires i < |prior|
    ensures prior[i].id <= MaxId(prior)
  {
    if i < |prior| - 1 {
      MaxIdIsMax(prior[..|prior| - 1], i);
    }
  }

  lemma {:induction false} MaxIdGrows(prior: seq<Consenter>, i: nat)
    requires i <= |prior|
    ensures MaxId(prior[..i]) <= MaxId(prior)
  {
    if i == |prior| {
      assert prior[..i] == prior;
    } else {
      assert prior[..|prior| - 1][..i] == prior[..i];
      MaxIdGrows(prior[..|prior| - 1], i);
    }
  }

  /** The highest old identifier, or zero. */
  lemma {:induction false} MaxIdIs(prior: seq<Consenter>)
    ensures forall i | 0 <= i < |prior| :: prior[i].id <= MaxId(prior)
    ensures MaxId(prior) == 0 || exists i :: 0 <= i < |prior| && prior[i].id == MaxId(prior)
  {
    if prior == [] {
    } else {
      MaxIdIs(prior[..|prior| - 1]);
      assert prior[|prior| - 1].id == MaxId(prior) || MaxId(prior) == MaxId(prior[..|prior| - 1]);
    }
  }

  /** Entry i has a positive identifier above all earlier ones. */
  ghost predicate IsRecord(prior: seq<Consenter>, i: int) {
    0 <= i < |prior| && prior[i].id > 0 && forall k | 0 <= k < i :: prior[k].id < prior[i].id
  }

  /** An endpoint is remembered with the highest of its identifiers that exceeded all earlier ones, if there is one. */
  lemma {:induction false} RecordsExactly(prior: seq<Consenter>, e: Endpoint)
    ensures e in Records(prior) <==> exists i :: IsRecord(prior, i) && prior[i].endpoint == e
    ensures forall i | IsRecord(prior, i) && prior[i].endpoint == e ::
            e in Records(prior) && prior[i].id <= Records(prior)[e]
    ensures e in Records(prior) ==>
              exists i :: IsRecord(prior, i) && prior[i].endpoint == e && prior[i].id == Records(prior)[e]
  {
    if prior == [] {
    } else {
      var n := |prior| - 1;
      var front := prior[..n];
      RecordsExactly(front, e);
      MaxIdIs(front);
      assert forall i | 0 <= i < n :: front[i] == prior[i];
      forall i | 0 <= i < n ensures IsRecord(front, i) <==> IsRecord(prior, i) {
      }
      assert IsRecord(prior, n) <==> prior[n].id > MaxId(front);
      forall i | IsRecord(prior, i) && prior[i].endpoint == e
        ensures e in Records(prior) && prior[i].id <= Records(prior)[e]
      {
        assert i < n ==> IsRecord(front, i);
      }
      if e in Records(prior) {
        if prior[n].id > MaxId(front) && prior[n].endpoint == e {
          assert IsRecord(prior, n);
        } else {
          var i :| IsRecord(front, i) && front[i].endpoint == e && front[i].id == Records(front)[e];
          assert IsRecord(prior, i) && prior[i].endpoint == e && prior[i].id == Records(prior)[e];
        }
      }
    }
  }

  /** How many of the first i orderers are not remembered. */
  function NewBefore(orderers: seq<Endpoint>, known: map<Endpoint, nat>, i: nat): nat
    requires i <= |orderers|
  {
    |set j | 0 <= j < i && orderers[j] !in known|
  }

  lemma {:induction false} TopCounts(orderers: seq<Endpoint>, top: nat, known: map<Endpoint, nat>, i: nat)
    requires i <= |orderers|
    ensures Top(orderers[..i], top, known) == top + NewBefore(orderers, known, i)
  {
    if i == 0 {
    } else {
      TopCounts(orderers, top, known, i - 1);
      assert orderers[..i][..i - 1] == orderers[..i - 1];
      var all := set j | 0 <= j < i && orderers[j] !in known;
      var before := set j | 0 <= j < i - 1 && orderers[j] !in known;
      assert all == if orderers[i - 1] in known then before else before + {i - 1};
    }
  }

  /**
    The whole allocation: every orderer in its place, a remembered one with the identifier remembered, and the
    others with consecutive identifiers from one above the highest old one.
   */
  lemma AllocationMeans(prior: seq<Consenter>, orderers: seq<Endpoint>, i: nat)
    requires i < |orderers|
    ensures |Allocate(prior, orderers)| == |orderers|
    ensures var c := Allocate(prior, orderers)[i];
            && c.endpoint == orderers[i]
            && (orderers[i] in Records(prior) ==> c.id == Records(prior)[orderers[i]])
            && (orderers[i] !in Records(prior) ==> c.id == MaxId(prior) + NewBefore(orderers, Records(prior), i) + 1)
  {
    AssignAt(orderers, MaxId(prior), Records(prior), i);
    TopCounts(orderers, MaxId(prior), Records(prior), i);
  }

  /** Remembered identifiers are positive, at most the maximum, and differ for different endpoints. */
  lemma {:induction false} RecordsInjective(prior: seq<Consenter>)
    ensures forall e | e in Records(prior) :: 0 < Records(prior)[e] <= MaxId(prior)
    ensures forall e, f | e in Records(prior) && f in Records(prior) && e != f :: Records(prior)[e] != Records(prior)[f]
  {
    if prior == [] {
    } else {
      RecordsInjective(prior[..|prior| - 1]);
    }
  }

  lemma {:induction false} AssignAt(orderers: seq<Endpoint>, top: nat, known: map<Endpoint, nat>, i: nat)
    requires i < |orderers|
    ensures |Assign(orderers, top, known)| == |orderers|
    ensures Assign(orderers, top, known)[i]
         == Consenter(orderers[i], if orderers[i] in known then known[orderers[i]]
                      else Top(orderers[..i], top, known) + 1)
  {
    var front := orderers[..|orderers| - 1];
    if |orderers| > 1 {
      AssignAt(front, top, known, if i < |front| then i else 0);
    }
    if i < |front| {
      assert front[..i] == orderers[..i];
    }
  }

  lemma {:induction false} TopGrows(orderers: seq<Endpoint>, top: nat, known: map<Endpoint, nat>, i: nat, j: nat)
    requires i <= j <= |orderers|
    ensures top <= Top(orderers[..i], top, known)
    ensures Top(orderers[..i], top, known) + (if i < j && orderers[i] !in known then 1 else 0)
         <= Top(orderers[..j], top, known)
    decreases j
  {
    if i < j {
      assert orderers[..j][..j - 1] == orderers[..j - 1];
      TopGrows(orderers, top, known, i, j - 1);
    } else if i > 0 {
      assert orderers[..i][..i - 1] == orderers[..i - 1];
      TopGrows(orderers, top, known, i - 1, i - 1);
    }
  }

  // ---- Uniqueness ----

  ghost predicate DistinctIds(cons: seq<Consenter>) {
    forall i, j | 0 <= i < j < |cons| :: cons[i].id != cons[j].id
  }

  ghost predicate Distinct(es: seq<Endpoint>) {
    forall i, j | 0 <= i < j < |es| :: es[i] != es[j]
  }

  lemma PairDistinctIff(prior: seq<Consenter>, orderers: seq<Endpoint>, i: nat, j: nat)
    requires i < j < |orderers| && |Allocate(prior, orderers)| == |orderers|
    ensures Allocate(prior, orderers)[i].id == Allocate(prior, orderers)[j].id <==>
            orderers[i] == orderers[j] && orderers[i] in Records(prior)
  {
    var top, known := MaxId(prior), Records(prior);
    RecordsInjective(prior);
    AssignAt(orderers, top, known, i);
    AssignAt(orderers, top, known, j);
    TopGrows(orderers, top, known, i, j);
    TopGrows(orderers, top, known, 0, i);
    TopGrows(orderers, top, known, 0, j);
    assert orderers[..0] == [];
  }

  /**
    Identifiers are pairwise distinct exactly when no remembered endpoint is listed twice; so, in particular, for
    distinct endpoints.
   */
  lemma IdsUniqueIff(prior: seq<Consenter>, orderers: seq<Endpoint>)
    ensures |Allocate(prior, orderers)| == |orderers|
    ensures DistinctIds(Allocate(prior, orderers)) <==>
            forall i, j | 0 <= i < j < |orderers| :: orderers[i] == orderers[j] ==> orderers[i] !in Records(prior)
    ensures Distinct(orderers) ==> DistinctIds(Allocate(prior, orderers))
  {
    var cons := Allocate(prior, orderers);
    if orderers != [] {
      AssignAt(orderers, MaxId(prior), Records(prior), 0);
    }
    forall i, j | 0 <= i < j < |orderers|
      ensures cons[i].id == cons[j].id <==> orderers[i] == orderers[j] && orderers[i] in Records(prior)
    {
      PairDistinctIff(prior, orderers, i, j);
    }
  }

  // ---- Stability ----

  function Endpoints(cons: seq<Consenter>): (es: seq<Endpoint>)
    ensures |es| == |cons|
    ensures forall i | 0 <= i < |cons| :: es[i] == cons[i].endpoint
  {
    if cons == [] then [] else Endpoints(cons[..|cons| - 1]) + [cons[|cons| - 1].endpoint]
  }

  lemma {:induction false} RecordsAreListed(prior: seq<Consenter>, e: Endpoint)
    ensures e in Records(prior) ==> e in Endpoints(prior)
  {
    if prior == [] {
    } else {
      RecordsAreListed(prior[..|prior| - 1], e);
    }
  }

  lemma {:induction false} FrontDistinct(prior: seq<Consenter>)
    requires prior != [] && Distinct(Endpoints(prior))
    ensures Distinct(Endpoints(prior[..|prior| - 1]))
    ensures prior[|prior| - 1].endpoint !in Endpoints(prior[..|prior| - 1])
  {
    var es, front := Endpoints(prior), Endpoints(prior[..|prior| - 1]);
    assert forall i | 0 <= i < |front| :: front[i] == es[i];
  }

  /** With distinct endpoints, an entry is remembered exactly when it exceeds all entries before it. */
  lemma {:induction false} RecordedIff(prior: seq<Consenter>, i: nat)
    requires i < |prior| && Distinct(Endpoints(prior))
    ensures prior[i].endpoint in Records(prior) <==> prior[i].id > MaxId(prior[..i])
    ensures prior[i].endpoint in Records(prior) ==> Records(prior)[prior[i].endpoint] == prior[i].id
  {
    var n := |prior| - 1;
    var front := prior[..n];
    FrontDistinct(prior);
    RecordsAreListed(front, prior[n].endpoint);
    if i < n {
      assert front[..i] == prior[..i];
      assert front[i].endpoint == Endpoints(front)[i];
      RecordedIff(front, i);
    }
  }

  /** A surviving endpoint keeps its identifier exactly when that identifier exceeded all the ones listed before it. */
  lemma {:induction false} KeepsIdIff(prior: seq<Consenter>, orderers: seq<Endpoint>, i: nat, j: nat)
    requires Distinct(Endpoints(prior))
    requires i < |prior| && j < |orderers| && orderers[j] == prior[i].endpoint
    ensures j < |Allocate(prior, orderers)|
    ensures Allocate(prior, orderers)[j].id == prior[i].id <==> prior[i].id > MaxId(prior[..i])
  {
    RecordedIff(prior, i);
    AssignAt(orderers, MaxId(prior), Records(prior), j);
    TopGrows(orderers, MaxId(prior), Records(prior), 0, j);
    assert orderers[..0] == [];
    MaxIdIsMax(prior, i);
  }

  // ---- Order ----

  function Before(cons: seq<Consenter>, i: nat): nat
    requires i <= |cons|
  {
    if i == 0 then 0 else cons[i - 1].id
  }

  /** The first k identifiers are positive and strictly increasing. */
  ghost predicate AscendingTo(cons: seq<Consenter>, k: nat) {
    k <= |cons| && forall i {:trigger Before(cons, i)} | 0 <= i < k :: cons[i].id > Before(cons, i)
  }

  lemma {:induction false} MaxOfAscending(cons: seq<Consenter>, k: nat)
    requires AscendingTo(cons, k)
    ensures MaxId(cons[..k]) == Before(cons, k)
  {
    if k == 0 {
    } else {
      assert cons[..k][..k - 1] == cons[..k - 1];
      MaxOfAscending(cons, k - 1);
    }
  }

  /** The orderers are some of the old ones, in their order, followed by new ones. */
  ghost predicate SelectedThenNew(prior: seq<Consenter>, orderers: seq<Endpoint>, kept: seq<nat>) {
    && |kept| <= |orderers|
    && (forall i | 0 <= i < |kept| :: kept[i] < |prior| && orderers[i] == prior[kept[i]].endpoint)
    && (forall i, j | 0 <= i < j < |kept| :: kept[i] < kept[j])
    && (forall i | |kept| <= i < |orderers| :: orderers[i] !in Endpoints(prior))
  }

  lemma {:induction false} AscendingBetween(cons: seq<Consenter>, i: nat, j: nat)
    requires AscendingTo(cons, |cons|) && i < j < |cons|
    ensures cons[i].id < cons[j].id
    decreases j
  {
    assert cons[j].id > Before(cons, j);
    if i < j - 1 {
      AscendingBetween(cons, i, j - 1);
    }
  }

  /** From ascending identifiers, dropping orderers and appending new ones keeps the identifiers ascending. */
  lemma {:induction false} OrderKept(prior: seq<Consenter>, orderers: seq<Endpoint>, kept: seq<nat>)
    requires Distinct(Endpoints(prior)) && AscendingTo(prior, |prior|) && SelectedThenNew(prior, orderers, kept)
    ensures AscendingTo(Allocate(prior, orderers), |orderers|)
    ensures forall i | 0 <= i < |kept| :: Allocate(prior, orderers)[i] == prior[kept[i]]
  {
    var top, known, cons := MaxId(prior), Records(prior), Allocate(prior, orderers);
    if orderers != [] {
      AssignAt(orderers, top, known, 0);
    }
    forall i | 0 <= i < |kept| ensures cons[i] == prior[kept[i]] && 0 < cons[i].id <= top {
      MaxOfAscending(prior, kept[i]);
      KeepsIdIff(prior, orderers, kept[i], i);
      AssignAt(orderers, top, known, i);
      MaxIdIsMax(prior, kept[i]);
    }
    forall i | |kept| <= i < |orderers|
      ensures orderers[i] !in known && cons[i].id == Top(orderers[..i], top, known) + 1 && cons[i].id > top
    {
      RecordsAreListed(prior, orderers[i]);
      AssignAt(orderers, top, known, i);
      TopGrows(orderers, top, known, 0, i);
      assert orderers[..0] == [];
    }
    forall i | 0 <= i < |orderers| ensures cons[i].id > Before(cons, i) {
      if 0 < i < |kept| {
        AscendingBetween(prior, kept[i - 1], kept[i]);
      } else if |kept| < i {
        TopGrows(orderers, top, known, i - 1, i);
      }
    }
  }

  // ---- Convergence ----

  /** One more run over the allocator's own output. */
  function Pass(cons: seq<Consenter>): seq<Consenter> {
    Allocate(cons, Endpoints(cons))
  }

  function Passes(cons: seq<Consenter>, n: nat): seq<Consenter> {
    if n == 0 then cons else Pass(Passes(cons, n - 1))
  }

  lemma PassKeepsEndpoints(cons: seq<Consenter>)
    ensures Endpoints(Pass(cons)) == Endpoints(cons)
  {
    var es := Endpoints(cons);
    if es != [] {
      AssignAt(es, MaxId(cons), Records(cons), 0);
    }
    forall i | 0 <= i < |es| ensures Endpoints(Pass(cons))[i] == es[i] {
      AssignAt(es, MaxId(cons), Records(cons), i);
    }
  }

  lemma {:induction false} AscendingIsKept(cons: seq<Consenter>, k: nat, i: nat)
    requires Distinct(Endpoints(cons)) && AscendingTo(cons, k) && i < k
    ensures i < |Pass(cons)| && Pass(cons)[i] == cons[i] && cons[i].endpoint in Records(cons)
  {
    assert AscendingTo(cons, i);
    MaxOfAscending(cons, i);
    RecordedIff(cons, i);
    AssignAt(Endpoints(cons), MaxId(cons), Records(cons), i);
  }

  lemma {:induction false} TopOfKnown(es: seq<Endpoint>, top: nat, known: map<Endpoint, nat>)
    requires forall e | e in es :: e in known
    ensures Top(es, top, known) == top
  {
    if es == [] {
    } else {
      TopOfKnown(es[..|es| - 1], top, known);
    }
  }

  /** The first entry after the ascending prefix gets an identifier above the prefix. */
  lemma NextIsAbove(cons: seq<Consenter>, k: nat)
    requires Distinct(Endpoints(cons)) && AscendingTo(cons, k) && k < |cons|
    ensures k < |Pass(cons)|
    ensures Pass(cons)[k].id > Before(cons, k)
  {
    var es := Endpoints(cons);
    AssignAt(es, MaxId(cons), Records(cons), k);
    MaxOfAscending(cons, k);
    RecordedIff(cons, k);
    MaxIdGrows(cons, k);
    forall e | e in es[..k] ensures e in Records(cons) {
      var i :| 0 <= i < k && es[i] == e;
      AscendingIsKept(cons, k, i);
    }
    TopOfKnown(es[..k], MaxId(cons), Records(cons));
  }

  /** Each pass keeps the ascending prefix and lengthens it by one. */
  lemma {:induction false} PassExtends(cons: seq<Consenter>, k: nat)
    requires Distinct(Endpoints(cons)) && AscendingTo(cons, k) && k < |cons|
    ensures AscendingTo(Pass(cons), k + 1)
    ensures Pass(cons)[..k] == cons[..k]
  {
    hide Pass;
    NextIsAbove(cons, k);
    forall i | 0 <= i < k ensures Pass(cons)[i] == cons[i] {
      AscendingIsKept(cons, k, i);
    }
    forall i | 0 <= i < k + 1 ensures Pass(cons)[i].id > Before(Pass(cons), i) {
      if i < k {
        assert cons[i].id > Before(cons, i);
      }
      if i > 0 {
        assert Pass(cons)[i - 1] == cons[i - 1];
      }
    }
  }

  lemma {:induction false} FixedWhenAscending(cons: seq<Consenter>)
    requires Distinct(Endpoints(cons)) && AscendingTo(cons, |cons|)
    ensures Pass(cons) == cons
  {
    if cons != [] {
      AssignAt(Endpoints(cons), MaxId(cons), Records(cons), 0);
    }
    forall i | 0 <= i < |cons| ensures Pass(cons)[i] == cons[i] {
      AscendingIsKept(cons, |cons|, i);
    }
  }

  lemma NothingAscends(cons: seq<Consenter>)
    ensures AscendingTo(cons, 0)
  {
  }

  lemma {:induction false} PassesExtend(cons: seq<Consenter>, k: nat)
    requires Distinct(Endpoints(cons)) && k <= |cons|
    ensures Endpoints(Passes(cons, k)) == Endpoints(cons)
    ensures AscendingTo(Passes(cons, k), k)
  {
    hide Pass, Endpoints, AscendingTo;
    if k == 0 {
      assert AscendingTo(cons, 0) by {
        NothingAscends(cons);
      }
    } else {
      PassesExtend(cons, k - 1);
      assert |Passes(cons, k - 1)| == |Endpoints(Passes(cons, k - 1))| == |cons|;
      PassKeepsEndpoints(Passes(cons, k - 1));
      PassExtends(Passes(cons, k - 1), k - 1);
    }
  }

  /** As many passes as there are orderers reach a fixed point, with positive ascending identifiers. */
  lemma {:induction false} Converges(cons: seq<Consenter>)
    requires Distinct(Endpoints(cons))
    ensures var fixed := Passes(cons, |cons|);
            && Endpoints(fixed) == Endpoints(cons)
            && AscendingTo(fixed, |cons|)
            && Pass(fixed) == fixed
  {
    PassesExtend(cons, |cons|);
    var fixed := Passes(cons, |cons|);
    assert |fixed| == |cons|;
    FixedWhenAscending(fixed);
  }
}

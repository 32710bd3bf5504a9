/** Reconciliation of the anchor peers of an organisation with a requested list. */
module AnchorPeers {

  datatype AnchorPeer = AnchorPeer(host: string, port: int)

  // ---- What is left over, and what is matched ----

  function Count(xs: seq<AnchorPeer>, p: AnchorPeer): nat {
    if xs == [] then 0
    else Count(xs[..|xs| - 1], p) + if xs[|xs| - 1] == p then 1 else 0
  }

  /**
    The elements of xs beyond those that ys accounts for, in the order of xs; earlier copies are accounted for first.
   */
  function Surplus(xs: seq<AnchorPeer>, ys: seq<AnchorPeer>): seq<AnchorPeer> {
    if xs == [] then []
    else
      var front, x := xs[..|xs| - 1], xs[|xs| - 1];
      if Count(front, x) >= Count(ys, x) then Surplus(front, ys) + [x] else Surplus(front, ys)
  }

  /** The other elements of xs, in the order of xs. */
  function Matched(xs: seq<AnchorPeer>, ys: seq<AnchorPeer>): seq<AnchorPeer> {
    if xs == [] then []
    else
      var front, x := xs[..|xs| - 1], xs[|xs| - 1];
      if Count(front, x) >= Count(ys, x) then Matched(front, ys) else Matched(front, ys) + [x]
  }

  ghost predicate Subsequence(s: seq<AnchorPeer>, xs: seq<AnchorPeer>) {
    s == [] || (xs != [] && (Subsequence(s, xs[..|xs| - 1])
                             || (s[|s| - 1] == xs[|xs| - 1] && Subsequence(s[..|s| - 1], xs[..|xs| - 1]))))
  }

  lemma CountSnoc(xs: seq<AnchorPeer>, x: AnchorPeer, p: AnchorPeer)
    ensures Count(xs + [x], p) == Count(xs, p) + if x == p then 1 else 0
  {
    assert (xs + [x])[..|xs|] == xs;
  }

  lemma {:induction false} CountIsMultiplicity(xs: seq<AnchorPeer>, p: AnchorPeer)
    ensures Count(xs, p) == multiset(xs)[p]
    ensures Count(xs, p) > 0 <==> p in xs
  {
    if xs == [] {
    } else {
      CountIsMultiplicity(xs[..|xs| - 1], p);
      assert xs == xs[..|xs| - 1] + [xs[|xs| - 1]];
    }
  }

  /** One more element of xs is surplus exactly if ys has no copy left for it, and matched otherwise. */
  lemma OneMoreElement(front: seq<AnchorPeer>, x: AnchorPeer, ys: seq<AnchorPeer>)
    ensures var more := Count(front, x) >= Count(ys, x);
            && Surplus(front + [x], ys) == (if more then Surplus(front, ys) + [x] else Surplus(front, ys))
            && Matched(front + [x], ys) == (if more then Matched(front, ys) else Matched(front, ys) + [x])
  {
    assert (front + [x])[..|front|] == front;
  }

  lemma {:induction false} CountSurplusAndMatched(xs: seq<AnchorPeer>, ys: seq<AnchorPeer>, p: AnchorPeer)
    ensures Count(Surplus(xs, ys), p) == if Count(xs, p) > Count(ys, p) then Count(xs, p) - Count(ys, p) else 0
    ensures Count(Matched(xs, ys), p) == if Count(xs, p) < Count(ys, p) then Count(xs, p) else Count(ys, p)
  {
    if xs == [] {
    } else {
      var front, x := xs[..|xs| - 1], xs[|xs| - 1];
      CountSurplusAndMatched(front, ys, p);
      CountsStep(front, x, ys, p);
      assert xs == front + [x];
    }
  }

  lemma CountsStep(front: seq<AnchorPeer>, x: AnchorPeer, ys: seq<AnchorPeer>, p: AnchorPeer)
    ensures Count(Surplus(front + [x], ys), p)
         == Count(Surplus(front, ys), p) + if x == p && Count(front, p) >= Count(ys, p) then 1 else 0
    ensures Count(Matched(front + [x], ys), p)
         == Count(Matched(front, ys), p) + if x == p && Count(front, p) < Count(ys, p) then 1 else 0
    ensures Count(front + [x], p) == Count(front, p) + if x == p then 1 else 0
  {
    hide Surplus, Matched, Count;
    OneMoreElement(front, x, ys);
    CountSnoc(front, x, p);
    CountSnoc(Surplus(front, ys), x, p);
    CountSnoc(Matched(front, ys), x, p);
  }

  lemma SubsequenceSnoc(s: seq<AnchorPeer>, xs: seq<AnchorPeer>, x: AnchorPeer)
    requires Subsequence(s, xs)
    ensures Subsequence(s, xs + [x]) && Subsequence(s + [x], xs + [x])
  {
    assert (xs + [x])[..|xs|] == xs && (s + [x])[..|s|] == s;
  }

  lemma {:induction false} SurplusInOrder(xs: seq<AnchorPeer>, ys: seq<AnchorPeer>)
    ensures Subsequence(Surplus(xs, ys), xs) && Subsequence(Matched(xs, ys), xs)
  {
    if xs == [] {
    } else {
      var front, x := xs[..|xs| - 1], xs[|xs| - 1];
      SurplusInOrder(front, ys);
      SubsequenceSnoc(Surplus(front, ys), front, x);
      SubsequenceSnoc(Matched(front, ys), front, x);
      assert xs == front + [x];
    }
  }

  /** Surplus and Matched are multiset difference and intersection, each listed in the order of xs. */
  lemma {:induction false} SurplusAndMatched(xs: seq<AnchorPeer>, ys: seq<AnchorPeer>)
    ensures multiset(Surplus(xs, ys)) == multiset(xs) - multiset(ys)
    ensures multiset(Matched(xs, ys)) == multiset(xs) * multiset(ys)
    ensures Subsequence(Surplus(xs, ys), xs) && Subsequence(Matched(xs, ys), xs)
  {
    hide Surplus, Matched, Count, Subsequence;
    SurplusInOrder(xs, ys);
    forall p
      ensures multiset(Surplus(xs, ys))[p] == (multiset(xs) - multiset(ys))[p]
      ensures multiset(Matched(xs, ys))[p] == (multiset(xs) * multiset(ys))[p]
    {
      CountSurplusAndMatched(xs, ys, p);
      CountIsMultiplicity(xs, p);
      CountIsMultiplicity(ys, p);
      CountIsMultiplicity(Surplus(xs, ys), p);
      CountIsMultiplicity(Matched(xs, ys), p);
    }
  }

  lemma EmptyIffNoCount(xs: seq<AnchorPeer>)
    ensures xs == [] <==> forall p :: Count(xs, p) == 0
  {
    if xs != [] {
      assert Count(xs, xs[|xs| - 1]) > 0;
    }
  }

  /** Nothing is left over on either side exactly when the lists are permutations of each other. */
  lemma NothingLeftIffPermutation(current: seq<AnchorPeer>, request: seq<AnchorPeer>)
    ensures Surplus(request, current) == [] && Surplus(current, request) == []
       <==> multiset(request) == multiset(current)
  {
    hide Surplus, Count;
    EmptyIffNoCount(Surplus(request, current));
    EmptyIffNoCount(Surplus(current, request));
    forall p
      ensures Count(Surplus(request, current), p) == 0 && Count(Surplus(current, request), p) == 0
         <==> multiset(request)[p] == multiset(current)[p]
    {
      CountSurplusAndMatched(request, current, p);
      CountSurplusAndMatched(current, request, p);
      CountIsMultiplicity(request, p);
      CountIsMultiplicity(current, p);
    }
    if Surplus(request, current) == [] && Surplus(current, request) == [] {
      forall p ensures multiset(request)[p] == multiset(current)[p] {
        assert Count(Surplus(request, current), p) == 0 && Count(Surplus(current, request), p) == 0;
      }
    }
  }

  function RemoveFirst(s: seq<AnchorPeer>, p: AnchorPeer): seq<AnchorPeer> {
    if s == [] then []
    else if s[0] == p then s[1..]
    else [s[0]] + RemoveFirst(s[1..], p)
  }

  lemma {:induction false} RemoveFirstSnoc(s: seq<AnchorPeer>, x: AnchorPeer, p: AnchorPeer)
    ensures RemoveFirst(s + [x], p) == if p in s then RemoveFirst(s, p) + [x] else if x == p then s else s + [x]
    ensures p !in s ==> RemoveFirst(s, p) == s
  {
    if s == [] {
    } else {
      assert (s + [x])[1..] == s[1..] + [x];
      RemoveFirstSnoc(s[1..], x, p);
    }
  }

  lemma {:induction false} RemoveFirstAt(s: seq<AnchorPeer>, i: nat)
    requires i < |s| && s[i] !in s[..i]
    ensures RemoveFirst(s, s[i]) == s[..i] + s[i + 1..]
  {
    if i == 0 {
    } else {
      assert s[i] != s[0];
      assert s[1..][..i - 1] == s[..i][1..];
      RemoveFirstAt(s[1..], i - 1);
    }
  }

  /** One more current peer takes the first copy of itself off the surplus of the request. */
  lemma {:induction false} OneMoreCurrent(xs: seq<AnchorPeer>, ys: seq<AnchorPeer>, p: AnchorPeer)
    ensures RemoveFirst(Surplus(xs, ys), p) == Surplus(xs, ys + [p])
    ensures p in Surplus(xs, ys) <==> Count(xs, p) > Count(ys, p)
  {
    SurplusHas(xs, ys, p);
    if xs == [] {
    } else {
      var front, x := xs[..|xs| - 1], xs[|xs| - 1];
      OneMoreCurrent(front, ys, p);
      OneMoreCurrentStep(front, x, ys, p);
      assert xs == front + [x];
    }
  }

  lemma SurplusHas(xs: seq<AnchorPeer>, ys: seq<AnchorPeer>, p: AnchorPeer)
    ensures p in Surplus(xs, ys) <==> Count(xs, p) > Count(ys, p)
  {
    hide Surplus, Matched, Count;
    CountSurplusAndMatched(xs, ys, p);
    CountIsMultiplicity(Surplus(xs, ys), p);
  }

  lemma OneMoreCurrentStep(front: seq<AnchorPeer>, x: AnchorPeer, ys: seq<AnchorPeer>, p: AnchorPeer)
    requires RemoveFirst(Surplus(front, ys), p) == Surplus(front, ys + [p])
    ensures RemoveFirst(Surplus(front + [x], ys), p) == Surplus(front + [x], ys + [p])
  {
    hide Surplus, Matched, Count, RemoveFirst;
    OneMoreElement(front, x, ys);
    OneMoreElement(front, x, ys + [p]);
    CountSnoc(ys, p, x);
    SurplusHas(front, ys, p);
    RemoveFirstSnoc(Surplus(front, ys), x, p);
  }

  // ---- The loops ----

  /** Removal from the slice buf[..len]: the elements behind position i move down by one, in place. */
  method RemoveAt(buf: array<AnchorPeer>, len: nat, i: nat)
    requires i < len <= buf.Length
    modifies buf
    ensures buf[..len - 1] == old(buf[..i] + buf[i + 1..len])
    ensures buf[len - 1..] == old(buf[len - 1..])
  {
    var j := i;
    while j + 1 < len
      invariant i <= j < len
      invariant buf[..j] == old(buf[..i] + buf[i + 1..j + 1])
      invariant buf[j..] == old(buf[j..])
    {
      ghost var rest := buf[j + 1..];
      assert rest == old(buf[j..])[1..];
      assert buf[j + 1] == rest[0] == old(buf[j + 1]);
      buf[j] := buf[j + 1];
      assert buf[j + 1..] == rest;
      j := j + 1;
    }
  }

  method GetAnchorPeerModifyStats(current: array<AnchorPeer>, request: array<AnchorPeer>)
    returns (existed: seq<AnchorPeer>, newPeers: seq<AnchorPeer>, deleted: seq<AnchorPeer>)
    ensures existed == Matched(current[..], request[..])
    ensures newPeers == Surplus(request[..], current[..])
    ensures deleted == Surplus(current[..], request[..])
  {
    hide Surplus, Matched, Count, RemoveFirst;
    var buf := new AnchorPeer[request.Length](i requires 0 <= i < request.Length reads request => request[i]);
    var n := request.Length;
    existed, deleted := [], [];
    ghost var want := request[..];
    assert buf[..n] == want;
    SurplusOverNothing(want);
    NothingYet(want);
    for j := 0 to current.Length
      invariant n <= buf.Length && fresh(buf)
      invariant buf[..n] == Surplus(want, current[..j])
      invariant deleted == Surplus(current[..j], want)
      invariant existed == Matched(current[..j], want)
    {
      var p := current[j];
      ghost var left := buf[..n];
      OneMoreCurrent(want, current[..j], p);
      OneMoreElement(current[..j], p, want);
      assert current[..j + 1] == current[..j] + [p];
      var i := 0;
      while i < n && buf[i] != p
        invariant i <= n
        invariant p !in buf[..i]
      {
        i := i + 1;
      }
      if i < n {
        existed := existed + [buf[i]];
        assert left[..i] == buf[..i] && left[i + 1..] == buf[i + 1..n];
        RemoveFirstAt(left, i);
        RemoveAt(buf, n, i);
        n := n - 1;
      } else {
        assert buf[..i] == left;
        RemoveFirstSnoc(left, p, p);
        deleted := deleted + [p];
      }
    }
    newPeers := buf[..n];
    assert current[..current.Length] == current[..];
  }

  lemma NothingYet(ys: seq<AnchorPeer>)
    ensures Surplus([], ys) == [] && Matched([], ys) == []
  {
  }

  lemma {:induction false} SurplusOverNothing(xs: seq<AnchorPeer>)
    ensures Surplus(xs, []) == xs
  {
    if xs == [] {
    } else {
      SurplusOverNothing(xs[..|xs| - 1]);
    }
  }
}

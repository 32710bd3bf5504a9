/** The BFT quorum: how many of n orderers must accept an envelope. */
module Quorum {

  /** Go's integer division: truncation toward zero. */
  function TruncDiv(a: int, b: nat): int
    requires b > 0
  {
    if a >= 0 then a / b else -((-a) / b)
  }

  function MaxFaulty(n: int): int {
    TruncDiv(n - 1, 3)
  }

  /** The ceiling of (n + f + 1) / 2. */
  function QuorumBft(n: int): int {
    (n + MaxFaulty(n) + 2) / 2
  }

  /** The quorum is the least majority over n and f together, and is reached by the correct orderers alone. */
  lemma QuorumIsLeast(n: int)
    requires n >= 1
    ensures var f, q := MaxFaulty(n), QuorumBft(n);
            && 0 <= f && 3 * f < n
            && 2 * q >= n + f + 1
            && (forall p: int :: 2 * p >= n + f + 1 ==> q <= p)
            && 1 <= q <= n - f
  {
    assert 3 * ((n - 1) / 3) <= n - 1;
  }

  lemma SubsetSize<T>(a: set<T>, b: set<T>)
    requires a <= b
    ensures |a| <= |b|
  {
    assert |b| == |a| + |b - a| by {
      assert b == a + (b - a);
    }
  }

  lemma UnionSize<T>(a: set<T>, b: set<T>)
    ensures |a| + |b| == |a + b| + |a * b|
  {
    assert a + b == a + (b - a) && b == (b - a) + (a * b);
    assert |a + b| == |a| + |b - a|;
    assert |b| == |b - a| + |a * b|;
  }

  /** Two quorums share more orderers than can be faulty, so at least one correct orderer. */
  lemma QuorumsIntersect<T>(orderers: set<T>, a: set<T>, b: set<T>, faulty: set<T>)
    requires |orderers| >= 1
    requires a <= orderers && b <= orderers
    requires |a| >= QuorumBft(|orderers|) && |b| >= QuorumBft(|orderers|)
    requires |faulty| <= MaxFaulty(|orderers|)
    ensures |a * b| >= MaxFaulty(|orderers|) + 1
    ensures exists x :: x in a && x in b && x !in faulty
  {
    QuorumIsLeast(|orderers|);
    UnionSize(a, b);
    SubsetSize(a + b, orderers);
    if forall x | x in a && x in b :: x in faulty {
      assert a * b <= faulty;
      SubsetSize(a * b, faulty);
    }
  }
}

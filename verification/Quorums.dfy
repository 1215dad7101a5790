/** Quorum arithmetic of a configuration, and how quorums of replicas intersect. */
module Quorums {

  /** A replica group: `n` replicas of which `f` may fail. */
  datatype Config = Config(n: nat, f: nat)

  /** Every group holds 2f+1 replicas. */
  predicate ValidConfig(c: Config) {
    c.n == 2 * c.f + 1
  }

  function QuorumSize(c: Config): nat {
    c.f + 1
  }

  function FastQuorumSize(c: Config): nat {
    c.f + (c.f + 1) / 2 + 1
  }

  function LeaderIndex(c: Config, view: nat): (i: nat)
    requires c.n > 0
    ensures i < c.n
  {
    view % c.n
  }

  function Replicas(n: nat): (s: set<nat>)
    ensures forall i: nat :: i in s <==> i < n
    ensures |s| == n
  {
    if n == 0 then {} else Replicas(n - 1) + {n - 1}
  }

  lemma {:induction false} SubsetCount<T>(a: set<T>, b: set<T>)
    requires a <= b
    ensures |a| <= |b|
    decreases a
  {
    if a != {} {
      var x :| x in a;
      SubsetCount(a - {x}, b - {x});
    }
  }

  /** Two sets of replicas overlap in at least the surplus of their sizes over n. */
  lemma Overlap(n: nat, a: set<nat>, b: set<nat>)
    requires a <= Replicas(n) && b <= Replicas(n)
    ensures |a * b| >= |a| + |b| - n
  {
    SubsetCount(a + b, Replicas(n));
    assert |a + b| + |a * b| == |a| + |b|;
  }

  /** Disjoint sets of replicas fit into n together. */
  lemma DisjointFit(n: nat, a: set<nat>, b: set<nat>)
    requires a <= Replicas(n) && b <= Replicas(n)
    requires a * b == {}
    ensures |a| + |b| <= n
  {
    Overlap(n, a, b);
  }

  /** Any two quorums share a replica. */
  lemma QuorumsMeet(c: Config, a: set<nat>, b: set<nat>) returns (r: nat)
    requires ValidConfig(c)
    requires a <= Replicas(c.n) && b <= Replicas(c.n)
    requires |a| >= QuorumSize(c) && |b| >= QuorumSize(c)
    ensures r in a && r in b
  {
    Overlap(c.n, a, b);
    assert a * b != {};
    r :| r in a * b;
  }

  /** How many members of a fast quorum every quorum of reporters must contain. */
  function RecoveryQuorum(c: Config): nat {
    FastQuorumSize(c) - c.f
  }

  /**
   * The arithmetic behind reconciliation. A quorum of reports contains at least RecoveryQuorum
   * members of any fast quorum; what lies outside a fast quorum is too small to look like one; and
   * two groups of RecoveryQuorum size cannot be disjoint inside one quorum.
   */
  lemma FastQuorumArithmetic(c: Config)
    requires ValidConfig(c)
    ensures FastQuorumSize(c) <= c.n
    ensures FastQuorumSize(c) + QuorumSize(c) - c.n == RecoveryQuorum(c)
    ensures c.n - FastQuorumSize(c) < RecoveryQuorum(c)
    ensures QuorumSize(c) < 2 * RecoveryQuorum(c)
    ensures 2 * FastQuorumSize(c) > c.n
  {
  }

  // Votes per operation.

  function AddVote(votes: map<nat, set<nat>>, op: nat, replica: nat): map<nat, set<nat>> {
    votes[op := (if op in votes then votes[op] else {}) + {replica}]
  }
}

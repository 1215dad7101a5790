/** What holds along whole runs of NOPaxos within a view. */
module NopaxosRuns {
  import opened Quorums
  import opened Logs
  import opened Nopaxos
  import opened NopaxosCore
  import opened NopaxosSafety
  import opened NopaxosSteps

  ghost predicate NextAt(v: View, run: seq<System>, steps: seq<Step>, k: nat)
    requires k < |steps| && |run| == |steps| + 1
  {
    Next(v, run[k], run[k + 1], steps[k])
  }

  ghost predicate Run(v: View, run: seq<System>, steps: seq<Step>) {
    && |run| == |steps| + 1 && Init(v, run[0])
    && forall k :: 0 <= k < |steps| ==> NextAt(v, run, steps, k)
  }

  lemma InvInit(v: View, s: System)
    requires Init(v, s)
    ensures Inv(v, s)
  {
  }

  lemma {:induction false} Reachable(v: View, run: seq<System>, steps: seq<Step>, k: nat)
    requires Run(v, run, steps) && k < |run|
    ensures Inv(v, run[k])
    decreases k
  {
    if k == 0 {
      InvInit(v, run[0]);
    } else {
      Reachable(v, run, steps, k - 1);
      assert NextAt(v, run, steps, k - 1);
      InvNext(v, run[k - 1], run[k], steps[k - 1]);
    }
  }

  lemma LaterTwice(v: View, s: System, t: System, u: System)
    requires LaterState(v, s, t) && LaterState(v, t, u)
    ensures LaterState(v, s, u)
  {
    var l := EnvOf(v, u).l;
    forall i | 0 <= i < |s.replicas|
      ensures LogEvolves(l, s.replicas[i].core, u.replicas[i].core)
    {
      EvolvesOn(EnvOf(v, t).l, l, s.replicas[i].core, t.replicas[i].core);
      EvolvesTwice(l, s.replicas[i].core, t.replicas[i].core, u.replicas[i].core);
    }
  }

  lemma EvolvesOn(l: seq<Slot>, l': seq<Slot>, k: Core, k': Core)
    requires l <= l' && LogEvolves(l, k, k')
    ensures LogEvolves(l', k, k')
  {
    forall j | 0 <= j < |k.log|
      ensures KeptAt(l', k, k', j)
    {
      assert KeptAt(l, k, k', j);
    }
  }

  lemma {:induction false} RunLater(v: View, run: seq<System>, steps: seq<Step>, j: nat, k: nat)
    requires Run(v, run, steps) && j <= k < |run|
    ensures LaterState(v, run[j], run[k])
    decreases k
  {
    Reachable(v, run, steps, j);
    if j < k {
      RunLater(v, run, steps, j, k - 1);
      Reachable(v, run, steps, k - 1);
      assert NextAt(v, run, steps, k - 1);
      InvNext(v, run[k - 1], run[k], steps[k - 1]);
      LaterTwice(v, run[j], run[k - 1], run[k]);
    }
  }

  /** Every message that was sent can be handled by whoever gets it. */
  lemma AlwaysReadable(v: View, run: seq<System>, steps: seq<Step>, k: nat, i: nat, m: Message)
    requires Run(v, run, steps) && k < |run| && i < v.c.n && m in run[k].sent
    ensures |run[k].replicas| == v.c.n && Readable(i, run[k].replicas[i], m)
  {
    Reachable(v, run, steps, k);
    assert MessageOk(EnvOf(v, run[k]), run[k].replicas, m);
  }

  function LogOf(s: System, i: nat): seq<Slot>
    requires i < |s.replicas|
  {
    s.replicas[i].core.log
  }

  /**
   * Agreement: any two replicas, at any two times of a run, have the same operation, gaps included, at
   * every position both have committed.
   */
  lemma Agreement(v: View, run: seq<System>, steps: seq<Step>, j: nat, a: nat, k: nat, b: nat, op: nat)
    requires Run(v, run, steps) && j <= k < |run| && a < v.c.n && b < v.c.n
    ensures |run[j].replicas| == |run[k].replicas| == v.c.n
    ensures 1 <= op <= run[j].replicas[a].committed && op <= run[k].replicas[b].committed ==>
              && op <= |LogOf(run[j], a)| && op <= |LogOf(run[k], b)|
              && LogOf(run[j], a)[op - 1] == LogOf(run[k], b)[op - 1]
  {
    Reachable(v, run, steps, j);
    Reachable(v, run, steps, k);
    RunLater(v, run, steps, j, k);
    assert RepOk(EnvOf(v, run[j]), a, run[j].replicas[a]) && RepOk(EnvOf(v, run[k]), b, run[k].replicas[b]);
  }

  /** The leader's log only grows; so an operation it received never becomes a no-op. */
  lemma LeaderAppendsOnly(v: View, run: seq<System>, steps: seq<Step>, j: nat, k: nat)
    requires Run(v, run, steps) && j <= k < |run|
    ensures v.leader < |run[j].replicas| && v.leader < |run[k].replicas|
    ensures LogOf(run[j], v.leader) <= LogOf(run[k], v.leader)
  {
    RunLater(v, run, steps, j, k);
  }

  /** Every no-op of a replica is one of the leader's. */
  lemma NoOpsAreLeaders(v: View, run: seq<System>, steps: seq<Step>, k: nat, i: nat, op: nat)
    requires Run(v, run, steps) && k < |run| && i < v.c.n
    ensures |run[k].replicas| == v.c.n
    ensures IsNoOp(LogOf(run[k], i), op) ==> IsNoOp(LogOf(run[k], v.leader), op)
  {
    Reachable(v, run, steps, k);
    var e, r := EnvOf(v, run[k]), run[k].replicas[i];
    assert RepOk(e, i, r);
    if IsNoOp(r.core.log, op) {
      assert op in r.core.gaps && GapOk(v, e.l, op);
    }
  }

  /**
   * Installing a gap never overwrites a committed or executed operation of a follower: the assertion and
   * the panic guarding the overwrite are unreachable.
   */
  lemma OverwritesOnlyOpen(v: View, run: seq<System>, steps: seq<Step>, k: nat, i: nat, gap: nat)
    requires Run(v, run, steps) && k < |run| && i < v.c.n && i != v.leader
    ensures |run[k].replicas| == v.c.n
    ensures var r := run[k].replicas[i];
            IsNoOp(LogOf(run[k], v.leader), gap) && Overwrites(r.core, gap) ==> r.committed < gap && r.executed < gap
  {
    Reachable(v, run, steps, k);
    var e, r := EnvOf(v, run[k]), run[k].replicas[i];
    assert RepOk(e, i, r);
    if IsNoOp(e.l, gap) && Overwrites(r.core, gap) {
      assert SlotOk(v, e.stamped, e.l, gap - 1) && SlotOk(v, e.stamped, r.core.log, gap - 1);
    }
  }

  /**
   * The same inside the loop of a sync prepare: whatever the gaps recorded so far have set off, the next one
   * overwrites only what is neither committed nor executed.
   */
  lemma LoopOverwritesOnlyOpen(v: View, run: seq<System>, steps: seq<Step>, k: nat, i: nat, p: nat, gaps: seq<nat>,
                               n: nat)
    requires Run(v, run, steps) && k < |run| && i < v.c.n && i != v.leader && n < |gaps|
    requires SyncPrepare(p, gaps) in run[k].sent && i < |run[k].replicas| && run[k].replicas[i].active
    ensures (forall x :: 0 <= x < |gaps| ==> gaps[x] >= 1)
    ensures var r := Advance(v, i, run[k].replicas[i], InstallGaps(run[k].replicas[i].core, gaps[..n])).0;
            Overwrites(r.core, gaps[n]) ==> r.committed < gaps[n] && r.executed < gaps[n]
  {
    Reachable(v, run, steps, k);
    var e, rs := EnvOf(v, run[k]), run[k].replicas;
    assert MessageOk(e, rs, SyncPrepare(p, gaps)) && RepOk(e, i, rs[i]);
    var core := InstallGaps(rs[i].core, gaps[..n]);
    InstallGapsOk(v, e.stamped, e.l, rs[i].core, gaps[..n]);
    AdvanceGood(e, rs, i, core);
    var r := Advance(v, i, rs[i], core).0;
    if Overwrites(r.core, gaps[n]) {
      assert gaps[n] in gaps && IsNoOp(e.l, gaps[n]);
      assert SlotOk(v, e.stamped, e.l, gaps[n] - 1) && SlotOk(v, e.stamped, r.core.log, gaps[n] - 1);
    }
  }

  // Durability.

  /** The replicas whose first p operations are the leader's. */
  function Holders(v: View, s: System, p: nat): set<nat>
    requires v.leader < |s.replicas|
  {
    set i: nat | i < |s.replicas| && Match(LogOf(s, v.leader), LogOf(s, i), p)
  }

  lemma VoterHolds(v: View, s: System, s': System, p: nat, i: nat)
    requires Inv(v, s) && LaterState(v, s, s')
    requires p in s.replicas[v.leader].syncOKs && i in s.replicas[v.leader].syncOKs[p]
    ensures i != v.leader && i in Holders(v, s', p)
  {
    var e, e' := EnvOf(v, s), EnvOf(v, s');
    assert VoteOk(e, s.replicas, p, i);
    MatchStable(e.l, e'.l, s.replicas[i].core, s'.replicas[i].core, p);
  }

  lemma QuorumHolds(v: View, s: System, s': System, p: nat)
    requires Inv(v, s) && LaterState(v, s, s') && p <= |LogOf(s, v.leader)|
    requires p in s.replicas[v.leader].syncOKs && |s.replicas[v.leader].syncOKs[p]| >= QuorumSize(v.c) - 1
    ensures |Holders(v, s', p)| >= QuorumSize(v.c)
  {
    var voters := s.replicas[v.leader].syncOKs[p];
    forall i | i in voters
      ensures i != v.leader && i in Holders(v, s', p)
    {
      VoterHolds(v, s, s', p, i);
    }
    assert v.leader in Holders(v, s', p);
    SubsetCount(voters + {v.leader}, Holders(v, s', p));
  }

  lemma BaseHeldBy(v: View, s: System, p: nat, i: nat)
    requires Inv(v, s) && p <= |v.base| && i < |s.replicas|
    ensures i in Holders(v, s, p)
  {
    var e := EnvOf(v, s);
    assert RepOk(e, i, s.replicas[i]);
    forall j | 0 <= j < p
      ensures LogOf(s, i)[j] == e.l[j]
    {
      assert SlotOk(v, e.stamped, e.l, j) && SlotOk(v, e.stamped, LogOf(s, i), j);
    }
  }

  lemma BaseHeld(v: View, s: System, p: nat)
    requires Inv(v, s) && p <= |v.base|
    ensures |Holders(v, s, p)| >= QuorumSize(v.c)
  {
    forall i: nat | i < v.c.n
      ensures i in Holders(v, s, p)
    {
      BaseHeldBy(v, s, p, i);
    }
    assert Replicas(v.c.n) <= Holders(v, s, p);
    SubsetCount(Replicas(v.c.n), Holders(v, s, p));
  }

  /**
   * A commit is durable: what any replica has committed at some time is, from then on, the leader's log
   * and the log of a quorum.
   */
  lemma CommitDurable(v: View, run: seq<System>, steps: seq<Step>, j: nat, i: nat, k: nat)
    requires Run(v, run, steps) && j <= k < |run| && i < v.c.n
    ensures |run[j].replicas| == |run[k].replicas| == v.c.n
    ensures var p := run[j].replicas[i].committed;
            |Holders(v, run[k], p)| >= QuorumSize(v.c) && Match(LogOf(run[k], v.leader), LogOf(run[j], i), p)
  {
    Reachable(v, run, steps, j);
    Reachable(v, run, steps, k);
    RunLater(v, run, steps, j, k);
    var s, s' := run[j], run[k];
    var p, q := s.replicas[i].committed, s.replicas[v.leader].committed;
    assert RepOk(EnvOf(v, s), i, s.replicas[i]);
    if p <= |v.base| {
      BaseHeld(v, s', p);
    } else {
      assert p <= q;
      QuorumHolds(v, s, s', q);
      SubsetCount(Holders(v, s', q), Holders(v, s', p));
    }
  }

  /**
   * The client's view. Once the leader and some replicas have answered a request at an operation number,
   * every replica that reaches this operation, then and ever after, has the same request there, a
   * request of the answered identity; and those who answered have reached it.
   */
  lemma RepliesDurable(v: View, run: seq<System>, steps: seq<Step>, j: nat, k: nat, op: nat, id: RequestId, who: nat,
                       i: nat)
    requires Run(v, run, steps) && j <= k < |run| && i < v.c.n
    requires Reply(op, v.leader, id) in run[j].sent && Reply(op, who, id) in run[j].sent
    ensures |run[k].replicas| == v.c.n && who < v.c.n && 1 <= op <= |LogOf(run[k], who)|
    ensures op <= |LogOf(run[k], v.leader)|
    ensures var slot := LogOf(run[k], v.leader)[op - 1];
            && slot.content.Op? && Id(slot.content.req) == id
            && (op <= |LogOf(run[k], i)| ==> LogOf(run[k], i)[op - 1] == slot)
  {
    Reachable(v, run, steps, j);
    Reachable(v, run, steps, k);
    RunLater(v, run, steps, j, k);
    var e := EnvOf(v, run[k]);
    var e0 := EnvOf(v, run[j]);
    MessageStable(e0, run[j].replicas, e, run[k].replicas, Reply(op, v.leader, id));
    MessageStable(e0, run[j].replicas, e, run[k].replicas, Reply(op, who, id));
    assert SlotOk(v, e.stamped, e.l, op - 1);
    assert RepOk(e, i, run[k].replicas[i]);
    if op <= |LogOf(run[k], i)| {
      NoOpsAreLeaders(v, run, steps, k, i, op);
      assert SlotOk(v, e.stamped, LogOf(run[k], i), op - 1);
    }
  }
}

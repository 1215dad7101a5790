/** What holds along whole runs of Viewstamped Replication within a view. */
module VrRuns {
  import opened Quorums
  import opened Logs
  import opened Vr
  import opened VrSafety

  // Every step keeps the invariant.

  predicate LaterState(v: View, s: System, s': System) {
    && v.leader < |s.replicas| && v.leader < |s'.replicas|
    && Later(EnvOf(v, s), s.replicas, EnvOf(v, s'), s'.replicas) && s.batches <= s'.batches
  }

  ghost predicate Keeps(v: View, s: System, s': System) {
    Inv(v, s') && LaterState(v, s, s')
  }

  lemma FollowerKeeps(v: View, s: System, s': System, i: nat, res: (Replica, set<Message>))
    requires Inv(v, s) && i != v.leader && Acts(v, s, s', i, res.0, res.1)
    requires res in GoodSteps(EnvOf(v, s), s.replicas, i)
    ensures Keeps(v, s, s')
  {
  }

  /** Closing a batch continues the sequence of batches. */
  lemma NotedOk(v: View, batches: seq<(nat, nat)>, r: Replica, r': Replica)
    requires BatchesOk(v, batches, r.lastBatchEnd) && r.lastBatchEnd <= r'.lastBatchEnd
    ensures BatchesOk(v, Noted(batches, r, r'), r'.lastBatchEnd) && batches <= Noted(batches, r, r')
  {
    var batches' := Noted(batches, r, r');
    forall k | 0 <= k < |batches'|
      ensures BatchAt(v, batches', k)
    {
      if k < |batches| {
        assert BatchAt(v, batches, k);
      }
    }
  }

  lemma LeaderKeeps(v: View, s: System, s': System, res: (Replica, set<Message>))
    requires Inv(v, s) && Acts(v, s, s', v.leader, res.0, res.1) && res in LeadSteps(EnvOf(v, s), s.replicas)
    ensures Keeps(v, s, s')
  {
    var e, rs, rs' := EnvOf(v, s), s.replicas, s'.replicas;
    var e' := LeadEnv(e, res.0);
    forall i | 0 <= i < v.c.n
      ensures RepOk(e', rs'[i])
    {
    }
    NotedOk(v, s.batches, rs[v.leader], res.0);
  }

  lemma LeadReceives(e: Env, rs: seq<Replica>, m: Message)
    requires LeadReady(e, rs) && MessageOk(e, rs, m) && Readable(e.v, e.v.leader, rs[e.v.leader], m)
    requires forall i :: 0 <= i < |rs| ==> RepOk(e, rs[i])
    ensures Receive(e.v, e.v.leader, rs[e.v.leader], m) in LeadSteps(e, rs)
  {
    var i, r := e.v.leader, rs[e.v.leader];
    match m
    case PrepareOK(op, j) => LeadPrepareOK(e, rs, op, j);
    case RequestStateTransfer(from, op) =>
      TransferAnswer(e, rs, i, from, op);
      LeadSpeaks(e, rs, HandleRequestStateTransfer(r, from, op));
    case _ =>
      LeadSpeaks(e, rs, {});
      assert Receive(e.v, i, r, m) == (r, {});
  }

  lemma FollowerCommit(e: Env, rs: seq<Replica>, i: nat, op: nat)
    requires Ready(e, rs, i) && MessageOk(e, rs, Commit(op))
    ensures HandleCommit(i, rs[i], op) in GoodSteps(e, rs, i)
  {
    var r := rs[i];
    if op <= r.committed {
      assert HandleCommit(i, r, op) == (r, {});
    } else if op > |r.log| {
      assert HandleCommit(i, r, op) == (r, {RequestStateTransfer(i, r.committed)});
    } else {
      CommitOk(e, r, op);
      assert HandleCommit(i, r, op) == (CommitUpTo(r, op), {});
    }
  }

  lemma FollowerAnswers(e: Env, rs: seq<Replica>, i: nat, from: nat, op: nat)
    requires Ready(e, rs, i) && MessageOk(e, rs, RequestStateTransfer(from, op))
    requires forall k :: 0 <= k < |rs| ==> RepOk(e, rs[k])
    ensures (rs[i], if from == i then {} else HandleRequestStateTransfer(rs[i], from, op)) in GoodSteps(e, rs, i)
  {
    TransferAnswer(e, rs, i, from, op);
    assert rs[i := rs[i]] == rs;
  }

  lemma FollowerReceives(e: Env, rs: seq<Replica>, i: nat, m: Message)
    requires Ready(e, rs, i) && MessageOk(e, rs, m) && Readable(e.v, i, rs[i], m)
    requires forall k :: 0 <= k < |rs| ==> RepOk(e, rs[k])
    ensures Receive(e.v, i, rs[i], m) in GoodSteps(e, rs, i)
  {
    var r := rs[i];
    match m
    case Prepare(start, op, reqs) =>
      FollowerPrepare(e, rs, i, start, op, reqs);
      assert Receive(e.v, i, r, m) == HandlePrepare(i, r, start, op, reqs);
    case Commit(op) =>
      FollowerCommit(e, rs, i, op);
      assert Receive(e.v, i, r, m) == HandleCommit(i, r, op);
    case RequestStateTransfer(from, op) => FollowerAnswers(e, rs, i, from, op);
    case StateTransfer(dst, begin, entries, committed) =>
      if dst == i {
        FollowerTransfer(e, rs, i, begin, entries, committed);
        assert Receive(e.v, i, r, m) == HandleStateTransfer(i, r, begin, entries, committed);
      } else {
        assert Receive(e.v, i, r, m) == (r, {});
      }
    case _ =>
      assert Receive(e.v, i, r, m) == (r, {});
  }

  /** Every message that was sent can be handled by whoever gets it: the assertions on its shape hold. */
  lemma AlwaysReadable(v: View, s: System, i: nat, m: Message)
    requires Inv(v, s) && i < v.c.n && m in s.sent
    ensures Readable(v, i, s.replicas[i], m)
  {
  }

  lemma DeliverKeeps(v: View, s: System, s': System, i: nat, m: Message)
    requires Inv(v, s) && i < v.c.n && m in s.sent && Readable(v, i, s.replicas[i], m)
    requires var (r, out) := Receive(v, i, s.replicas[i], m); Acts(v, s, s', i, r, out)
    ensures Keeps(v, s, s')
  {
    var e, rs := EnvOf(v, s), s.replicas;
    if i == v.leader {
      LeadReceives(e, rs, m);
      LeaderKeeps(v, s, s', Receive(v, i, rs[i], m));
    } else {
      FollowerReceives(e, rs, i, m);
      FollowerKeeps(v, s, s', i, Receive(v, i, rs[i], m));
    }
  }

  lemma InvNext(v: View, s: System, s': System, step: Step)
    requires Inv(v, s) && Next(v, s, s', step)
    ensures Keeps(v, s, s')
  {
    var e, rs := EnvOf(v, s), s.replicas;
    var lead := rs[v.leader];
    match step
    case Arrive(req, replicate, res) =>
      LeadRequest(e, rs, req, replicate, res);
      LeaderKeeps(v, s, s', HandleRequest(v, lead, req, replicate, res));
    case Deliver(i, m) => DeliverKeeps(v, s, s', i, m);
    case CloseTimer =>
      LeadClose(e, rs);
      LeaderKeeps(v, s, s', CloseBatch(lead));
    case Resend =>
      LeadSpeaks(e, rs, ResendPrepare(lead));
      LeaderKeeps(v, s, s', (lead, ResendPrepare(lead)));
    case NullCommit =>
      LeadSpeaks(e, rs, {Commit(lead.committed)});
      LeaderKeeps(v, s, s', (lead, {Commit(lead.committed)}));
  }

  // Runs.

  ghost predicate NextAt(v: View, run: seq<System>, steps: seq<Step>, k: nat)
    requires k < |steps| && |run| == |steps| + 1
  {
    Next(v, run[k], run[k + 1], steps[k])
  }

  ghost predicate Run(v: View, run: seq<System>, steps: seq<Step>) {
    && |run| == |steps| + 1 && Init(v, run[0])
    && forall k :: 0 <= k < |steps| ==> NextAt(v, run, steps, k)
  }

  lemma {:induction false} Reachable(v: View, run: seq<System>, steps: seq<Step>, k: nat)
    requires Run(v, run, steps) && k < |run|
    ensures Inv(v, run[k])
    decreases k
  {
    if k == 0 {
    } else {
      Reachable(v, run, steps, k - 1);
      assert NextAt(v, run, steps, k - 1);
      InvNext(v, run[k - 1], run[k], steps[k - 1]);
    }
  }

  lemma LaterTwice(v: View, s: System, t: System, u: System)
    requires LaterState(v, s, t) && LaterState(v, t, u)
    ensures LaterState(v, s, u)
  {
  }

  lemma {:induction false} RunLater(v: View, run: seq<System>, steps: seq<Step>, j: nat, k: nat)
    requires Run(v, run, steps) && j <= k < |run|
    ensures LaterState(v, run[j], run[k])
    decreases k
  {
    Reachable(v, run, steps, j);
    if j < k {
      RunLater(v, run, steps, j, k - 1);
      Reachable(v, run, steps, k - 1);
      assert NextAt(v, run, steps, k - 1);
      InvNext(v, run[k - 1], run[k], steps[k - 1]);
      LaterTwice(v, run[j], run[k - 1], run[k]);
    }
  }

  /** Every replica's log, at any time, is a prefix of the leader's then and later. */
  lemma LogsArePrefixes(v: View, run: seq<System>, steps: seq<Step>, j: nat, i: nat, k: nat)
    requires Run(v, run, steps) && j <= k < |run| && i < v.c.n
    ensures |run[j].replicas| == |run[k].replicas| == v.c.n && run[j].replicas[i].log <= run[k].replicas[v.leader].log
  {
    Reachable(v, run, steps, j);
    Reachable(v, run, steps, k);
    RunLater(v, run, steps, j, k);
    assert RepOk(EnvOf(v, run[j]), run[j].replicas[i]);
  }

  /** Agreement: what two replicas have executed, at whatever times, one is a prefix of the other. */
  lemma Agreement(v: View, run: seq<System>, steps: seq<Step>, j: nat, a: nat, k: nat, b: nat)
    requires Run(v, run, steps) && j <= k < |run| && a < v.c.n && b < v.c.n
    ensures |run[j].replicas| == |run[k].replicas| == v.c.n
    ensures var x, y := run[j].replicas[a].executed, run[k].replicas[b].executed; x <= y || y <= x
  {
    LogsArePrefixes(v, run, steps, j, a, k);
    LogsArePrefixes(v, run, steps, k, b, k);
    Reachable(v, run, steps, j);
    Reachable(v, run, steps, k);
    assert RepOk(EnvOf(v, run[j]), run[j].replicas[a]) && RepOk(EnvOf(v, run[k]), run[k].replicas[b]);
    var x, y := run[j].replicas[a].executed, run[k].replicas[b].executed;
    var l := run[k].replicas[v.leader].log;
    assert x <= l && y <= l;
    assert if |x| <= |y| then x == y[..|x|] else y == x[..|y|];
  }

  /** No request is executed twice. */
  lemma AtMostOnce(v: View, run: seq<System>, steps: seq<Step>, k: nat, i: nat, a: nat, b: nat)
    requires Run(v, run, steps) && k < |run| && i < v.c.n
    ensures |run[k].replicas| == v.c.n
    ensures var x := run[k].replicas[i].executed; a < b < |x| ==> Id(x[a]) != Id(x[b])
  {
    LogsArePrefixes(v, run, steps, k, i, k);
    Reachable(v, run, steps, k);
    assert RepOk(EnvOf(v, run[k]), run[k].replicas[i]);
  }

  /** The replicas that have the first p operations of the leader's log. */
  function Holders(v: View, s: System, p: nat): set<nat>
    requires v.leader < |s.replicas|
  {
    set i: nat | i < |s.replicas| && p <= |s.replicas[i].log| && PartOf(s.replicas[v.leader].log, 0, s.replicas[i].log)
  }

  lemma VotersHold(v: View, s: System, s': System, p: nat)
    requires Inv(v, s) && Inv(v, s') && LaterState(v, s, s') && p <= |s.replicas[v.leader].log|
    requires p in s.replicas[v.leader].oks && |s.replicas[v.leader].oks[p]| >= QuorumSize(v.c) - 1
    ensures |Holders(v, s', p)| >= QuorumSize(v.c)
  {
    var voters := s.replicas[v.leader].oks[p];
    forall i | i in voters
      ensures i != v.leader && i in Holders(v, s', p)
    {
      assert VoteOk(EnvOf(v, s), s.replicas, p, i);
      assert Evolves(s.replicas[i], s'.replicas[i]) && RepOk(EnvOf(v, s'), s'.replicas[i]);
    }
    assert Evolves(s.replicas[v.leader], s'.replicas[v.leader]) && RepOk(EnvOf(v, s'), s'.replicas[v.leader]);
    assert v.leader in Holders(v, s', p);
    SubsetCount(voters + {v.leader}, Holders(v, s', p));
  }

  /** What any replica has committed is, from then on, in the logs of a quorum. */
  lemma CommitDurable(v: View, run: seq<System>, steps: seq<Step>, j: nat, i: nat, k: nat)
    requires Run(v, run, steps) && j <= k < |run| && i < v.c.n
    ensures |run[j].replicas| == |run[k].replicas| == v.c.n
    ensures |Holders(v, run[k], run[j].replicas[i].committed)| >= QuorumSize(v.c)
  {
    Reachable(v, run, steps, j);
    Reachable(v, run, steps, k);
    RunLater(v, run, steps, j, k);
    var s, s' := run[j], run[k];
    var p, q := s.replicas[i].committed, s.replicas[v.leader].committed;
    assert RepOk(EnvOf(v, s), s.replicas[i]) && RepOk(EnvOf(v, s), s.replicas[v.leader]);
    if p <= |v.base| {
      forall x: nat | x < v.c.n
        ensures x in Holders(v, s', p)
      {
        assert RepOk(EnvOf(v, s'), s'.replicas[x]);
      }
      assert Replicas(v.c.n) <= Holders(v, s', p);
      SubsetCount(Replicas(v.c.n), Holders(v, s', p));
    } else {
      VotersHold(v, s, s', q);
      SubsetCount(Holders(v, s', q), Holders(v, s', p));
    }
  }

  // Batches.

  predicate InBatch(b: (nat, nat), op: nat) {
    b.0 <= op <= b.1
  }

  lemma {:induction false} BatchFor(v: View, batches: seq<(nat, nat)>, end: nat, op: nat) returns (k: nat)
    requires BatchesOk(v, batches, end) && |v.base| < op <= end
    ensures k < |batches| && InBatch(batches[k], op)
    decreases |batches|
  {
    assert |batches| > 0;
    var last := |batches| - 1;
    assert BatchAt(v, batches, last);
    if op >= batches[last].0 {
      k := last;
    } else {
      var rest := batches[..last];
      forall x | 0 <= x < |rest|
        ensures BatchAt(v, rest, x)
      {
        assert BatchAt(v, batches, x);
      }
      k := BatchFor(v, rest, EndOf(v, batches, last), op);
    }
  }

  lemma {:induction false} BatchesAscend(v: View, batches: seq<(nat, nat)>, end: nat, j: nat, k: nat)
    requires BatchesOk(v, batches, end) && j < k < |batches|
    ensures batches[j].1 < batches[k].0
    decreases k
  {
    assert BatchAt(v, batches, k) && BatchAt(v, batches, k - 1);
    if j < k - 1 {
      BatchesAscend(v, batches, end, j, k - 1);
    }
  }

  /**
   * In every reachable state the closed batches partition the operations since the base up to the last
   * batch's end: each is in one batch, and in no other.
   */
  lemma BatchesPartition(v: View, run: seq<System>, steps: seq<Step>, n: nat, op: nat)
    requires Run(v, run, steps) && n < |run|
    ensures v.leader < |run[n].replicas|
    ensures var bs := run[n].batches;
            && (|v.base| < op <= run[n].replicas[v.leader].lastBatchEnd <==>
                  exists k :: 0 <= k < |bs| && InBatch(bs[k], op))
            && forall j, k :: 0 <= j < |bs| && 0 <= k < |bs| && InBatch(bs[j], op) && InBatch(bs[k], op) ==> j == k
  {
    Reachable(v, run, steps, n);
    var bs, end := run[n].batches, run[n].replicas[v.leader].lastBatchEnd;
    if |v.base| < op <= end {
      var k := BatchFor(v, bs, end, op);
    }
    forall k | 0 <= k < |bs| && InBatch(bs[k], op)
      ensures |v.base| < op <= end
    {
      BatchWithin(v, bs, end, k);
    }
    forall j, k | 0 <= j < |bs| && 0 <= k < |bs| && InBatch(bs[j], op) && InBatch(bs[k], op)
      ensures j == k
    {
      if j < k {
        BatchesAscend(v, bs, end, j, k);
      } else if k < j {
        BatchesAscend(v, bs, end, k, j);
      }
    }
  }

  lemma BatchWithin(v: View, batches: seq<(nat, nat)>, end: nat, k: nat)
    requires BatchesOk(v, batches, end) && k < |batches|
    ensures |v.base| < batches[k].0 && batches[k].1 <= end
  {
    assert BatchAt(v, batches, k) && BatchAt(v, batches, 0) && BatchAt(v, batches, |batches| - 1);
    if k > 0 {
      BatchesAscend(v, batches, end, 0, k);
    }
    if k < |batches| - 1 {
      BatchesAscend(v, batches, end, k, |batches| - 1);
    }
  }

  /** A prepare stands for a closed batch. */
  predicate IsBatch(batches: seq<(nat, nat)>, m: Message) {
    m.Prepare? ==> (m.start, m.op) in batches
  }

  ghost predicate BatchInv(v: View, s: System)
    requires v.leader < |s.replicas|
  {
    var last := s.replicas[v.leader].lastPrepare;
    (forall m :: m in s.sent ==> IsBatch(s.batches, m)) && (last.Some? ==> IsBatch(s.batches, last.value))
  }

  /** What the leader may do to its last prepare, and which prepares it may send. */
  predicate BatchStep(r: Replica, r': Replica, out: set<Message>) {
    && (r'.lastPrepare == r.lastPrepare || (r'.lastPrepare.Some? && ClosesBatch(r, r', r'.lastPrepare.value)))
    && forall m :: m in out && m.Prepare? ==> r'.lastPrepare == Some(m)
  }

  predicate ClosesBatch(r: Replica, r': Replica, m: Message) {
    m.Prepare? && r.lastBatchEnd < r'.lastBatchEnd && m.start == r.lastBatchEnd + 1 && m.op == r'.lastBatchEnd
  }

  lemma BatchKept(v: View, s: System, s': System, r: Replica, out: set<Message>)
    requires v.leader < |s.replicas| && BatchInv(v, s) && Acts(v, s, s', v.leader, r, out)
    requires BatchStep(s.replicas[v.leader], r, out)
    ensures BatchInv(v, s')
  {
  }

  lemma ReplyBatch(v: View, r: Replica, op: nat, replica: nat)
    requires r.committed <= |r.log| && op <= |r.log| && r.lastBatchEnd <= |r.log|
    ensures var (r', out) := HandlePrepareOK(v, r, op, replica); BatchStep(r, r', out)
  {
  }

  lemma BatchNext(v: View, s: System, s': System, step: Step)
    requires Inv(v, s) && BatchInv(v, s) && Next(v, s, s', step)
    ensures v.leader < |s'.replicas| && BatchInv(v, s')
  {
    var lead := s.replicas[v.leader];
    match step
    case Arrive(req, replicate, res) =>
      var (r, out) := HandleRequest(v, lead, req, replicate, res);
      BatchKept(v, s, s', r, out);
    case Deliver(i, m) =>
      var (r, out) := Receive(v, i, s.replicas[i], m);
      if i == v.leader {
        if m.PrepareOK? {
          ReplyBatch(v, lead, m.op, m.replica);
        }
        BatchKept(v, s, s', r, out);
      }
    case CloseTimer => BatchKept(v, s, s', CloseBatch(lead).0, CloseBatch(lead).1);
    case Resend => BatchKept(v, s, s', lead, ResendPrepare(lead));
    case NullCommit => BatchKept(v, s, s', lead, {Commit(lead.committed)});
  }

  lemma {:induction false} ReachableBatches(v: View, run: seq<System>, steps: seq<Step>, k: nat)
    requires Run(v, run, steps) && k < |run|
    ensures v.leader < |run[k].replicas| && BatchInv(v, run[k])
    decreases k
  {
    if k == 0 {
      assert Entering(v, run[0].replicas[v.leader]);
    } else {
      ReachableBatches(v, run, steps, k - 1);
      Reachable(v, run, steps, k - 1);
      assert NextAt(v, run, steps, k - 1);
      BatchNext(v, run[k - 1], run[k], steps[k - 1]);
    }
  }

  /** Every prepare ever sent is one of the closed batches, with the leader's operations of that batch. */
  lemma PreparesAreBatches(v: View, run: seq<System>, steps: seq<Step>, k: nat, m: Message)
    requires Run(v, run, steps) && k < |run| && m in run[k].sent && m.Prepare?
    ensures v.leader < |run[k].replicas| && (m.start, m.op) in run[k].batches
    ensures 1 <= m.start <= m.op <= |run[k].replicas[v.leader].log|
    ensures m.reqs == run[k].replicas[v.leader].log[m.start - 1..m.op]
  {
    ReachableBatches(v, run, steps, k);
    Reachable(v, run, steps, k);
    assert IsBatch(run[k].batches, m) && MessageOk(EnvOf(v, run[k]), run[k].replicas, m);
  }
}

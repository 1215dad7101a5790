/**
 * What every step of Viewstamped Replication does, over runs. The leader's log and commit point are told from the
 * steps alone: which requests arrived and which acknowledgements were received.
 */
module VrEffects {
  import opened Numbers
  import opened Quorums
  import opened Logs
  import opened Vr
  import opened VrSafety
  import opened VrRuns

  // What has arrived at the leader.

  predicate ArrivedBefore(steps: seq<Step>, j: nat, req: Request)
    requires j < |steps|
  {
    steps[j].Arrive? && steps[j].req.clientid == req.clientid && steps[j].req.clientreqid >= req.clientreqid
  }

  /** The request's number is above all that its client used so far, replicated or not. */
  ghost predicate IsNew(t0: map<nat, nat>, steps: seq<Step>, req: Request) {
    && (req.clientid in t0 ==> t0[req.clientid] < req.clientreqid)
    && forall j :: 0 <= j < |steps| ==> !ArrivedBefore(steps, j, req)
  }

  /** The step brings a request that is to be replicated and is new. */
  ghost predicate Brings(t0: map<nat, nat>, before: seq<Step>, step: Step) {
    step.Arrive? && step.replicate && IsNew(t0, before, step.req)
  }

  /** The new requests to be replicated, with what the application made of them, in order of arrival. */
  ghost function Logged(t0: map<nat, nat>, steps: seq<Step>): seq<Request> {
    if steps == [] then []
    else
      var n := |steps| - 1;
      Logged(t0, steps[..n]) + if Brings(t0, steps[..n], steps[n]) then [steps[n].req.(op := steps[n].res)] else []
  }

  /** The followers whose acknowledgements of `op` the leader has received. */
  function Heard(v: View, steps: seq<Step>, op: nat): set<nat> {
    set j | 0 <= j < |steps| && AckStep(v, steps[j], op) :: steps[j].m.replica
  }

  predicate AckStep(v: View, step: Step, op: nat) {
    step.Deliver? && step.i == v.leader && step.m.PrepareOK? && step.m.op == op
  }

  // The leader's table.

  ghost predicate TableTells(t0: map<nat, nat>, steps: seq<Step>, t: map<nat, nat>) {
    forall req :: Accepts(t, req) <==> IsNew(t0, steps, req)
  }

  lemma {:induction false} RecordCovered(log: seq<Request>, t: map<nat, nat>, lo: nat, hi: nat)
    requires InClientOrder(log, t) && lo <= hi <= |log|
    ensures RecordAll(t, log[lo..hi]) == t
    decreases hi
  {
    if lo < hi {
      RecordCovered(log, t, lo, hi - 1);
      assert log[lo..hi][..hi - 1 - lo] == log[lo..hi - 1];
    }
  }

  lemma NewAfter(t0: map<nat, nat>, steps: seq<Step>, step: Step, req: Request)
    ensures IsNew(t0, steps + [step], req) <==>
              && IsNew(t0, steps, req)
              && !(step.Arrive? && step.req.clientid == req.clientid && step.req.clientreqid >= req.clientreqid)
  {
    var all := steps + [step];
    assert all[|steps|] == step;
    forall j | 0 <= j < |steps|
      ensures ArrivedBefore(all, j, req) <==> ArrivedBefore(steps, j, req)
    {
    }
    if IsNew(t0, all, req) {
      assert !ArrivedBefore(all, |steps|, req);
      forall j | 0 <= j < |steps|
        ensures !ArrivedBefore(steps, j, req)
      {
        assert !ArrivedBefore(all, j, req);
      }
    }
  }

  lemma TableArrive(t0: map<nat, nat>, steps: seq<Step>, t: map<nat, nat>, step: Step)
    requires TableTells(t0, steps, t) && step.Arrive?
    ensures TableTells(t0, steps + [step], Record(t, step.req))
  {
    forall req
      ensures Accepts(Record(t, step.req), req) <==> IsNew(t0, steps + [step], req)
    {
      NewAfter(t0, steps, step, req);
    }
  }

  lemma TableOther(t0: map<nat, nat>, steps: seq<Step>, t: map<nat, nat>, step: Step)
    requires TableTells(t0, steps, t) && !step.Arrive?
    ensures TableTells(t0, steps + [step], t)
  {
    forall req
      ensures Accepts(t, req) <==> IsNew(t0, steps + [step], req)
    {
      NewAfter(t0, steps, step, req);
    }
  }

  // An acknowledgement at the leader.

  predicate Bounded(r: Replica) {
    r.committed <= |r.log| && r.lastBatchEnd <= |r.log| && r.executed == r.log[..r.committed]
  }

  /** The batch that has gathered at the leader. */
  function Gathered(r: Replica, lastBatchEnd: nat): Message
    requires lastBatchEnd <= |r.log|
  {
    Prepare(lastBatchEnd + 1, |r.log|, r.log[lastBatchEnd..])
  }

  /** With so many heard, what becomes of the leader: enough commit, and just enough end the batch that is out. */
  predicate Acked(v: View, r: Replica, op: nat, heard: nat, r': Replica)
    requires Bounded(r)
  {
    var done := heard == QuorumSize(v.c) - 1 && op == r.lastBatchEnd;
    var closes := done && |r.log| > r.lastBatchEnd;
    && r'.log == r.log && Bounded(r')
    && r'.committed == (if heard >= QuorumSize(v.c) - 1 then Max(r.committed, op) else r.committed)
    && r'.lastBatchEnd == (if closes then |r.log| else r.lastBatchEnd)
    && r'.batchComplete == ((r.batchComplete || done) && !closes)
    && r'.lastPrepare == (if closes then Some(Gathered(r, op)) else r.lastPrepare)
  }

  /** And what it says: just enough are announced, and what has gathered goes out after the batch that was. */
  function AckSays(v: View, r: Replica, op: nat, heard: nat): set<Message>
    requires Bounded(r)
  {
    if heard != QuorumSize(v.c) - 1 then {}
    else {Commit(Max(r.committed, op))} + if op == r.lastBatchEnd < |r.log| then {Gathered(r, op)} else {}
  }

  lemma CommitIs(r: Replica, op: nat)
    requires Bounded(r) && op <= |r.log|
    ensures var t, c := CommitUpTo(r, op), Max(r.committed, op);
            t == r.(committed := c, executed := r.log[..c], table := t.table) && Bounded(t)
  {
    if op > r.committed {
      assert r.log[..r.committed] + r.log[r.committed..op] == r.log[..op];
    }
  }

  lemma AckHandled(v: View, r: Replica, op: nat, i: nat)
    requires Bounded(r) && op <= |r.log|
    ensures var (r', out) := HandlePrepareOK(v, r, op, i);
            var heard := |AddVote(r.oks, op, i)[op]|;
            Acked(v, r, op, heard, r') && out == AckSays(v, r, op, heard) && r'.oks == AddVote(r.oks, op, i)
  {
    var s := r.(oks := AddVote(r.oks, op, i));
    CommitIs(s, op);
    var t := CommitUpTo(s, op);
    if |s.oks[op]| < QuorumSize(v.c) - 1 {
      assert HandlePrepareOK(v, r, op, i) == (s, {});
    } else if |s.oks[op]| >= QuorumSize(v.c) {
      assert HandlePrepareOK(v, r, op, i) == (t, {});
    } else {
      JustEnough(v, r, op, t);
      assert HandlePrepareOK(v, r, op, i) == AfterCommit(t, op);
    }
  }

  lemma JustEnough(v: View, r: Replica, op: nat, t: Replica)
    requires Bounded(r) && op <= |r.log| && Bounded(t) && t.committed == Max(r.committed, op)
    requires t.log == r.log && t.lastBatchEnd == r.lastBatchEnd && t.batchComplete == r.batchComplete
    requires t.lastPrepare == r.lastPrepare
    ensures var (r', out) := AfterCommit(t, op);
            var heard := QuorumSize(v.c) - 1;
            Acked(v, r, op, heard, r') && out == AckSays(v, r, op, heard) && r'.oks == t.oks
  {
  }

  // The leader's votes.

  lemma HeardAfter(v: View, steps: seq<Step>, step: Step, op: nat)
    ensures Heard(v, steps + [step], op) == Heard(v, steps, op) + if AckStep(v, step, op) then {step.m.replica} else {}
  {
    var all := steps + [step];
    assert all[|steps|] == step;
    forall i | i in Heard(v, steps, op)
      ensures i in Heard(v, all, op)
    {
      var j :| 0 <= j < |steps| && AckStep(v, steps[j], op) && steps[j].m.replica == i;
      assert all[j] == steps[j];
    }
  }

  ghost predicate OksTell(v: View, steps: seq<Step>, oks: map<nat, set<nat>>) {
    forall op: nat :: OkTells(v, steps, oks, op)
  }

  ghost predicate OkTells(v: View, steps: seq<Step>, oks: map<nat, set<nat>>, op: nat) {
    (op in oks <==> Heard(v, steps, op) != {}) && (op in oks ==> oks[op] == Heard(v, steps, op))
  }

  lemma OksAck(v: View, steps: seq<Step>, oks: map<nat, set<nat>>, step: Step)
    requires OksTell(v, steps, oks) && step.Deliver? && step.i == v.leader && step.m.PrepareOK?
    ensures OksTell(v, steps + [step], AddVote(oks, step.m.op, step.m.replica))
  {
    var oks' := AddVote(oks, step.m.op, step.m.replica);
    forall op: nat
      ensures OkTells(v, steps + [step], oks', op)
    {
      assert OkTells(v, steps, oks, op);
      HeardAfter(v, steps, step, op);
    }
  }

  lemma OksOther(v: View, steps: seq<Step>, oks: map<nat, set<nat>>, step: Step)
    requires OksTell(v, steps, oks) && !(step.Deliver? && step.i == v.leader && step.m.PrepareOK?)
    ensures OksTell(v, steps + [step], oks)
  {
    forall op: nat
      ensures OkTells(v, steps + [step], oks, op)
    {
      assert OkTells(v, steps, oks, op);
      HeardAfter(v, steps, step, op);
    }
  }

  /** A quorum, with the leader, has the operation. */
  ghost predicate Enough(v: View, steps: seq<Step>, op: nat) {
    Heard(v, steps, op) != {} && |Heard(v, steps, op)| >= QuorumSize(v.c) - 1
  }

  /** Operation `p`, or a later one, was acknowledged by enough. */
  ghost predicate Reached(v: View, steps: seq<Step>, p: nat) {
    exists op: nat :: p <= op && Enough(v, steps, op)
  }

  lemma EnoughStays(v: View, steps: seq<Step>, step: Step, op: nat)
    ensures Enough(v, steps, op) ==> Enough(v, steps + [step], op)
    ensures !AckStep(v, step, op) ==> (Enough(v, steps + [step], op) <==> Enough(v, steps, op))
  {
    HeardAfter(v, steps, step, op);
    SubsetCount(Heard(v, steps, op), Heard(v, steps + [step], op));
  }

  lemma ReachedAfter(v: View, steps: seq<Step>, step: Step, p: nat)
    ensures var now := step.Deliver? && step.m.PrepareOK? && AckStep(v, step, step.m.op) && p <= step.m.op;
            Reached(v, steps + [step], p) <==> Reached(v, steps, p) || (now && Enough(v, steps + [step], step.m.op))
  {
    if Reached(v, steps, p) {
      var op: nat :| p <= op && Enough(v, steps, op);
      EnoughStays(v, steps, step, op);
    }
    if Reached(v, steps + [step], p) {
      var op: nat :| p <= op && Enough(v, steps + [step], op);
      EnoughStays(v, steps, step, op);
    }
  }

  // What the leader has come to, told by the steps.

  /** Operation `p` was committed at first, or enough followers have acknowledged it or a later one. */
  ghost predicate MayCommit(v: View, c0: nat, steps: seq<Step>, p: nat) {
    p <= c0 || Reached(v, steps, p)
  }

  ghost predicate CommitTells(v: View, c0: nat, steps: seq<Step>, committed: nat) {
    forall p: nat :: p <= committed <==> MayCommit(v, c0, steps, p)
  }

  function Lead(v: View, s: System): Replica
    requires v.leader < |s.replicas|
  {
    s.replicas[v.leader]
  }

  ghost predicate Told(v: View, r0: Replica, steps: seq<Step>, r: Replica) {
    && TableTells(r0.table, steps, r.table) && r.log == v.base + Logged(r0.table, steps)
    && OksTell(v, steps, r.oks) && CommitTells(v, r0.committed, steps, r.committed)
  }

  lemma LoggedAfter(t0: map<nat, nat>, steps: seq<Step>, step: Step)
    ensures Logged(t0, steps + [step]) ==
              Logged(t0, steps) + if Brings(t0, steps, step) then [step.req.(op := step.res)] else []
  {
    assert (steps + [step])[..|steps|] == steps;
  }

  lemma CommitSame(v: View, c0: nat, steps: seq<Step>, committed: nat, step: Step)
    requires CommitTells(v, c0, steps, committed) && !(step.Deliver? && step.i == v.leader && step.m.PrepareOK?)
    ensures CommitTells(v, c0, steps + [step], committed)
  {
    forall p: nat
      ensures p <= committed <==> MayCommit(v, c0, steps + [step], p)
    {
      ReachedAfter(v, steps, step, p);
      assert p <= committed <==> MayCommit(v, c0, steps, p);
    }
  }

  lemma CommitAck(v: View, c0: nat, steps: seq<Step>, committed: nat, step: Step, committed': nat)
    requires CommitTells(v, c0, steps, committed) && step.Deliver? && step.i == v.leader && step.m.PrepareOK?
    requires committed' == if Enough(v, steps + [step], step.m.op) then Max(committed, step.m.op) else committed
    ensures CommitTells(v, c0, steps + [step], committed')
  {
    forall p: nat
      ensures p <= committed' <==> MayCommit(v, c0, steps + [step], p)
    {
      ReachedAfter(v, steps, step, p);
      assert p <= committed <==> MayCommit(v, c0, steps, p);
    }
  }

  /** A request that arrives. */
  lemma RequestTold(v: View, r0: Replica, steps: seq<Step>, r: Replica, step: Step)
    requires Told(v, r0, steps, r) && step.Arrive? && r.lastBatchEnd <= |r.log|
    ensures var r' := HandleRequest(v, r, step.req, step.replicate, step.res).0; Told(v, r0, steps + [step], r')
  {
    LoggedAfter(r0.table, steps, step);
    OksOther(v, steps, r.oks, step);
    CommitSame(v, r0.committed, steps, r.committed, step);
    TableArrive(r0.table, steps, r.table, step);
    assert Accepts(r.table, step.req) <==> IsNew(r0.table, steps, step.req);
    if !Accepts(r.table, step.req) {
      assert Record(r.table, step.req) == r.table;
    }
  }

  /** An acknowledgement. */
  lemma AckTold(v: View, r0: Replica, steps: seq<Step>, r: Replica, op: nat, i: nat)
    requires Told(v, r0, steps, r) && InClientOrder(r.log, r.table) && Bounded(r) && op <= |r.log|
    ensures var r' := HandlePrepareOK(v, r, op, i).0; Told(v, r0, steps + [Deliver(v.leader, PrepareOK(op, i))], r')
  {
    var step := Deliver(v.leader, PrepareOK(op, i));
    var r' := HandlePrepareOK(v, r, op, i).0;
    AckHandled(v, r, op, i);
    AckTable(v, r, op, i);
    LoggedAfter(r0.table, steps, step);
    TableOther(r0.table, steps, r.table, step);
    OksAck(v, steps, r.oks, step);
    assert OkTells(v, steps + [step], r'.oks, op);
    CommitAck(v, r0.committed, steps, r.committed, step, r'.committed);
  }

  lemma AckTable(v: View, r: Replica, op: nat, i: nat)
    requires InClientOrder(r.log, r.table) && Bounded(r) && op <= |r.log|
    ensures HandlePrepareOK(v, r, op, i).0.table == r.table
  {
    if r.committed < op {
      RecordCovered(r.log, r.table, r.committed, op);
    }
  }

  /** Anything else. */
  lemma OtherTold(v: View, r0: Replica, steps: seq<Step>, r: Replica, step: Step, r': Replica)
    requires Told(v, r0, steps, r) && !step.Arrive? && !(step.Deliver? && step.i == v.leader && step.m.PrepareOK?)
    requires r'.log == r.log && r'.table == r.table && r'.oks == r.oks && r'.committed == r.committed
    ensures Told(v, r0, steps + [step], r')
  {
    LoggedAfter(r0.table, steps, step);
    TableOther(r0.table, steps, r.table, step);
    OksOther(v, steps, r.oks, step);
    CommitSame(v, r0.committed, steps, r.committed, step);
  }

  lemma StepTold(v: View, s: System, s': System, r0: Replica, steps: seq<Step>, step: Step)
    requires Inv(v, s) && Next(v, s, s', step) && Told(v, r0, steps, Lead(v, s))
    ensures v.leader < |s'.replicas| && Told(v, r0, steps + [step], Lead(v, s'))
  {
    var r := Lead(v, s);
    assert RepOk(EnvOf(v, s), r);
    match step
    case Arrive(req, replicate, res) => RequestTold(v, r0, steps, r, step);
    case Deliver(i, m) =>
      if i == v.leader && m.PrepareOK? {
        AckTold(v, r0, steps, r, m.op, m.replica);
      } else {
        OtherTold(v, r0, steps, r, step, Lead(v, s'));
      }
    case _ => OtherTold(v, r0, steps, r, step, Lead(v, s'));
  }

  lemma {:induction false} RunTold(v: View, run: seq<System>, steps: seq<Step>, k: nat)
    requires Run(v, run, steps) && k < |run|
    ensures |run[0].replicas| == |run[k].replicas| == v.c.n && v.leader < v.c.n
    ensures Told(v, Lead(v, run[0]), steps[..k], Lead(v, run[k]))
    decreases k
  {
    Reachable(v, run, steps, 0);
    Reachable(v, run, steps, k);
    if k == 0 {
      StartTold(v, Lead(v, run[0]));
    } else {
      RunTold(v, run, steps, k - 1);
      Reachable(v, run, steps, k - 1);
      assert NextAt(v, run, steps, k - 1);
      StepTold(v, run[k - 1], run[k], Lead(v, run[0]), steps[..k - 1], steps[k - 1]);
      assert steps[..k] == steps[..k - 1] + [steps[k - 1]];
    }
  }

  lemma StartTold(v: View, r: Replica)
    requires Entering(v, r)
    ensures Told(v, r, [], r)
  {
    assert r.log == v.base + [];
    forall op: nat
      ensures OkTells(v, [], r.oks, op) && Heard(v, [], op) == {}
    {
    }
  }

  /**
   * The leader's log is the base followed by exactly the requests that were to be replicated and were new when they
   * arrived, in that order; and it has committed exactly up to where it began or enough followers acknowledged.
   */
  lemma LeaderExactly(v: View, run: seq<System>, steps: seq<Step>, k: nat)
    requires Run(v, run, steps) && k < |run|
    ensures v.leader < |run[0].replicas| && v.leader < |run[k].replicas|
    ensures var r0, r := Lead(v, run[0]), Lead(v, run[k]);
            && r.log == v.base + Logged(r0.table, steps[..k])
            && (forall p: nat :: p <= r.committed <==> MayCommit(v, r0.committed, steps[..k], p))
            && r.committed <= |r.log| && r.executed == r.log[..r.committed]
  {
    RunTold(v, run, steps, k);
    Reachable(v, run, steps, k);
    assert RepOk(EnvOf(v, run[k]), Lead(v, run[k]));
  }

  // Step by step.

  /**
   * A request is appended exactly when it is to be replicated and new; that closes the batch exactly when none is
   * out or enough has gathered.
   */
  lemma ArriveEffect(v: View, run: seq<System>, steps: seq<Step>, k: nat)
    requires Run(v, run, steps) && k < |steps| && steps[k].Arrive?
    ensures v.leader < |run[0].replicas| && v.leader < |run[k].replicas| == |run[k + 1].replicas|
    ensures var r, r' := Lead(v, run[k]), Lead(v, run[k + 1]);
            var logged := Brings(Lead(v, run[0]).table, steps[..k], steps[k]);
            var closes := logged && (r.batchComplete || |r.log| - r.lastBatchEnd + 2 > v.batchSize);
            && r.lastBatchEnd <= |r.log| <= |r'.log|
            && r'.log == r.log + (if logged then [steps[k].req.(op := steps[k].res)] else [])
            && r'.lastBatchEnd == (if closes then |r'.log| else r.lastBatchEnd)
            && r'.batchComplete == (r.batchComplete && !closes)
            && r'.lastPrepare == (if closes then Some(Gathered(r', r.lastBatchEnd)) else r.lastPrepare)
            && r'.committed == r.committed && r'.executed == r.executed && r'.oks == r.oks
            && run[k + 1].sent == run[k].sent + (if closes then {Gathered(r', r.lastBatchEnd)} else {})
            && run[k + 1].replicas == run[k].replicas[v.leader := r']
  {
    RunTold(v, run, steps, k);
    Reachable(v, run, steps, k);
    assert NextAt(v, run, steps, k) && RepOk(EnvOf(v, run[k]), Lead(v, run[k]));
    assert Accepts(Lead(v, run[k]).table, steps[k].req) <==>
           IsNew(Lead(v, run[0]).table, steps[..k], steps[k].req);
  }

  /**
   * An acknowledgement commits exactly when enough have come; the one that makes them enough is announced, and when
   * it was for the batch that is out the next batch goes out, if anything has gathered.
   */
  lemma AckEffect(v: View, run: seq<System>, steps: seq<Step>, k: nat, op: nat, i: nat)
    requires Run(v, run, steps) && k < |steps| && steps[k] == Deliver(v.leader, PrepareOK(op, i))
    ensures v.leader < |run[k].replicas| == |run[k + 1].replicas|
    ensures var r, r' := Lead(v, run[k]), Lead(v, run[k + 1]);
            var heard := |Heard(v, steps[..k + 1], op)|;
            && Bounded(r) && Acked(v, r, op, heard, r') && run[k + 1].sent == run[k].sent + AckSays(v, r, op, heard)
            && run[k + 1].replicas == run[k].replicas[v.leader := r']
  {
    RunTold(v, run, steps, k + 1);
    Reachable(v, run, steps, k);
    assert NextAt(v, run, steps, k) && RepOk(EnvOf(v, run[k]), Lead(v, run[k]));
    AckHandled(v, Lead(v, run[k]), op, i);
    assert OkTells(v, steps[..k + 1], Lead(v, run[k + 1]).oks, op);
  }

  /** What is known of a follower that receives a message of a run. */
  lemma FollowerKnown(v: View, run: seq<System>, steps: seq<Step>, k: nat, i: nat, m: Message)
    requires Run(v, run, steps) && k < |steps| && steps[k] == Deliver(i, m) && i != v.leader
    ensures v.leader < |run[k].replicas| == |run[k + 1].replicas| && i < |run[k].replicas|
    ensures var e, r := EnvOf(v, run[k]), run[k].replicas[i];
            && RepOk(e, r) && MessageOk(e, run[k].replicas, m) && e.committed <= |e.l| && Readable(v, i, r, m)
            && run[k + 1].replicas[i] == Receive(v, i, r, m).0 && Lead(v, run[k + 1]) == Lead(v, run[k])
            && run[k + 1].sent == run[k].sent + Receive(v, i, r, m).1
            && run[k + 1].replicas == run[k].replicas[i := run[k + 1].replicas[i]]
  {
    Reachable(v, run, steps, k);
    assert NextAt(v, run, steps, k);
    assert RepOk(EnvOf(v, run[k]), run[k].replicas[i]) && RepOk(EnvOf(v, run[k]), Lead(v, run[k]));
  }

  /**
   * A prepare brings a follower that has what precedes it to its last operation, and is acknowledged exactly when
   * the follower then has that; otherwise a transfer is asked for.
   */
  lemma PrepareEffect(v: View, run: seq<System>, steps: seq<Step>, k: nat, i: nat, start: nat, op: nat,
                      reqs: seq<Request>)
    requires Run(v, run, steps) && k < |steps| && steps[k] == Deliver(i, Prepare(start, op, reqs)) && i != v.leader
    ensures v.leader < |run[k].replicas| == |run[k + 1].replicas| && i < |run[k].replicas|
    ensures var l, r, r' := Lead(v, run[k]).log, run[k].replicas[i], run[k + 1].replicas[i];
            && |r.log| <= |l| && op <= |l|
            && r'.log == l[..if start <= |r.log| + 1 then Max(|r.log|, op) else |r.log|]
            && r'.committed == r.committed && r'.executed == r.executed
            && run[k + 1].sent == run[k].sent + {if |r'.log| >= op then PrepareOK(op, i)
                                                 else RequestStateTransfer(i, r.committed)}
            && run[k + 1].replicas == run[k].replicas[i := r']
  {
    FollowerKnown(v, run, steps, k, i, steps[k].m);
  }

  /**
   * A commit executes the leader's operations up to it exactly when the follower has them; otherwise a transfer is
   * asked for.
   */
  lemma CommitEffect(v: View, run: seq<System>, steps: seq<Step>, k: nat, i: nat, op: nat)
    requires Run(v, run, steps) && k < |steps| && steps[k] == Deliver(i, Commit(op)) && i != v.leader
    ensures v.leader < |run[k].replicas| == |run[k + 1].replicas| && i < |run[k].replicas|
    ensures var l, r, r' := Lead(v, run[k]).log, run[k].replicas[i], run[k + 1].replicas[i];
            && r'.log == r.log && r'.committed <= |l|
            && r'.committed == (if op <= |r.log| then Max(r.committed, op) else r.committed)
            && r'.executed == l[..r'.committed]
            && run[k + 1].sent == run[k].sent + (if op > |r.log| then {RequestStateTransfer(i, r.committed)} else {})
            && run[k + 1].replicas == run[k].replicas[i := r']
  {
    FollowerKnown(v, run, steps, k, i, steps[k].m);
    var l, r := Lead(v, run[k]).log, run[k].replicas[i];
    if r.committed < op <= |r.log| {
      CommitIs(r, op);
    }
    assert r.log == l[..|r.log|];
  }

  /** A transfer request is answered with all that follows the requester's commit point, and the commit point. */
  lemma TransferRequestEffect(v: View, run: seq<System>, steps: seq<Step>, k: nat, i: nat, from: nat, op: nat)
    requires Run(v, run, steps) && k < |steps| && steps[k] == Deliver(i, RequestStateTransfer(from, op))
    ensures v.leader < |run[k].replicas| && i < |run[k].replicas|
    ensures var l, r := Lead(v, run[k]).log, run[k].replicas[i];
            && |r.log| <= |l|
            && run[k + 1].replicas == run[k].replicas
            && run[k + 1].sent == run[k].sent + (if from == i then {} else
                 {StateTransfer(from, op + 1, if op <= |r.log| then l[op..|r.log|] else [], r.committed)})
  {
    Reachable(v, run, steps, k);
    assert NextAt(v, run, steps, k) && RepOk(EnvOf(v, run[k]), run[k].replicas[i]);
    var l, r := Lead(v, run[k]).log, run[k].replicas[i];
    assert r.log == l[..|r.log|];
    if op <= |r.log| {
      assert l[..|r.log|][op..] == l[op..|r.log|];
    }
  }

  /**
   * A transfer brings the follower at least to where it ends and executes up to its commit point; the uncommitted
   * operations from the old end on are acknowledged.
   */
  lemma TransferEffect(v: View, run: seq<System>, steps: seq<Step>, k: nat, i: nat, begin: nat, entries: seq<Request>,
                       committed: nat)
    requires Run(v, run, steps) && k < |steps| && i != v.leader
    requires steps[k] == Deliver(i, StateTransfer(i, begin, entries, committed))
    ensures v.leader < |run[k].replicas| == |run[k + 1].replicas| && i < |run[k].replicas|
    ensures var l, r, r' := Lead(v, run[k]).log, run[k].replicas[i], run[k + 1].replicas[i];
            && begin >= 1 && |r.log| <= |l| && begin - 1 + |entries| <= |l|
            && r'.log == l[..Max(|r.log|, begin - 1 + |entries|)]
            && r'.committed == Max(r.committed, committed) <= |l| && r'.executed == l[..r'.committed]
            && run[k + 1].sent == run[k].sent
                 + (set op: nat | Max(|r.log|, r'.committed + 1) <= op <= |r'.log| :: PrepareOK(op, i))
            && run[k + 1].replicas == run[k].replicas[i := r']
  {
    FollowerKnown(v, run, steps, k, i, steps[k].m);
    TransferHandled(EnvOf(v, run[k]), i, run[k].replicas[i], begin, entries, committed);
  }

  lemma TakesOver(e: Env, r: Replica, begin: nat, entries: seq<Request>)
    requires RepOk(e, r) && 1 <= begin <= r.committed + 1 && PartOf(e.l, begin - 1, entries)
    ensures TakeOver(r, begin, entries) == r.(log := e.l[..Max(|r.log|, begin - 1 + |entries|)])
  {
    var have := |r.log| + 1 - begin;
    assert r.log == e.l[..|r.log|];
    if |entries| > have {
      assert r.log + entries[have..] == e.l[..begin - 1 + |entries|];
    }
  }

  lemma TransferHandled(e: Env, i: nat, r: Replica, begin: nat, entries: seq<Request>, committed: nat)
    requires RepOk(e, r) && 1 <= begin <= r.committed + 1 && PartOf(e.l, begin - 1, entries)
    requires committed <= begin - 1 + |entries|
    ensures var (r', out) := HandleStateTransfer(i, r, begin, entries, committed);
            && r'.log == e.l[..Max(|r.log|, begin - 1 + |entries|)]
            && r'.committed == Max(r.committed, committed) <= |e.l| && r'.executed == e.l[..r'.committed]
            && out == set op: nat | Max(|r.log|, r'.committed + 1) <= op <= |r'.log| :: PrepareOK(op, i)
  {
    var t := TakeOver(r, begin, entries);
    TakesOver(e, r, begin, entries);
    PrefixTwice(e.l, r.log, r.committed);
    PrefixTwice(e.l, t.log, r.committed);
    CommitIs(t, committed);
    PrefixTwice(e.l, t.log, Max(r.committed, committed));
    OKsAre(i, Max(r.committed, committed), |r.log|, |t.log|);
  }

  lemma PrefixTwice(l: seq<Request>, log: seq<Request>, n: nat)
    requires PartOf(l, 0, log) && n <= |log|
    ensures log[..n] == l[..n]
  {
  }

  lemma OKsAre(me: nat, committed: nat, lo: nat, hi: nat)
    ensures OKs(me, committed, lo, hi) == set op: nat | Max(lo, committed + 1) <= op <= hi :: PrepareOK(op, me)
  {
  }

  /** The timers: the gathered batch goes out, the last prepare or the commit point is repeated. */
  lemma TimerEffect(v: View, run: seq<System>, steps: seq<Step>, k: nat)
    requires Run(v, run, steps) && k < |steps| && (steps[k].CloseTimer? || steps[k].Resend? || steps[k].NullCommit?)
    ensures v.leader < |run[k].replicas| == |run[k + 1].replicas|
    ensures var r, r' := Lead(v, run[k]), Lead(v, run[k + 1]);
            && r.lastBatchEnd <= |r.log| && r'.log == r.log && r'.committed == r.committed && r'.executed == r.executed
            && r'.oks == r.oks && r'.lastBatchEnd == (if steps[k].CloseTimer? then |r.log| else r.lastBatchEnd)
            && r'.batchComplete == (r.batchComplete && !steps[k].CloseTimer?)
            && r'.lastPrepare == (if steps[k].CloseTimer? then Some(Gathered(r, r.lastBatchEnd)) else r.lastPrepare)
            && run[k + 1].replicas == run[k].replicas[v.leader := r']
            && run[k + 1].sent == run[k].sent +
                 (if steps[k].CloseTimer? then {Gathered(r, r.lastBatchEnd)}
                  else if steps[k].NullCommit? then {Commit(r.committed)}
                  else if |r.log| > r.committed && r.lastPrepare.Some? then {r.lastPrepare.value} else {})
  {
    Reachable(v, run, steps, k);
    assert NextAt(v, run, steps, k) && RepOk(EnvOf(v, run[k]), Lead(v, run[k]));
  }

  /** Messages that are not meant for the replica change nothing. */
  lemma OthersIgnored(v: View, run: seq<System>, steps: seq<Step>, k: nat, i: nat, m: Message)
    requires Run(v, run, steps) && k < |steps| && steps[k] == Deliver(i, m) && !m.RequestStateTransfer?
    requires if i == v.leader then !m.PrepareOK? else m.PrepareOK? || (m.StateTransfer? && m.dst != i)
    ensures run[k + 1].replicas == run[k].replicas && run[k + 1].sent == run[k].sent
  {
    assert NextAt(v, run, steps, k);
    assert run[k].replicas[i := run[k].replicas[i]] == run[k].replicas;
  }
}

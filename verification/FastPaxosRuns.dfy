/** What holds along whole runs of Fast Paxos. */
module FastPaxosRuns {
  import opened Quorums
  import opened Logs
  import opened FastPaxos
  import opened FastPaxosSafety

  ghost predicate NextAt(c: Config, run: seq<System>, steps: seq<Step>, k: nat)
    requires k < |steps| && |run| == |steps| + 1
  {
    Next(c, run[k], run[k + 1], steps[k])
  }

  ghost predicate Run(c: Config, run: seq<System>, steps: seq<Step>) {
    && ValidConfig(c) && |run| == |steps| + 1 && Init(c, run[0])
    && forall k :: 0 <= k < |steps| ==> NextAt(c, run, steps, k)
  }

  lemma {:induction false} Reachable(c: Config, run: seq<System>, steps: seq<Step>, k: nat)
    requires Run(c, run, steps) && k < |run|
    ensures Inv(c, run[k])
    decreases k
  {
    if k == 0 {
    } else {
      Reachable(c, run, steps, k - 1);
      assert NextAt(c, run, steps, k - 1);
      InvNext(c, run[k - 1], run[k], steps[k - 1]);
    }
  }

  /** A later state: the leader's log has only grown and every entry is kept or became the leader's. */
  predicate Later(s: System, s': System) {
    && LEADER < |s.replicas| && LEADER < |s'.replicas|
    && LeaderLog(s) <= LeaderLog(s')
    && AllEvolve(LeaderLog(s'), s.replicas, s'.replicas)
  }

  lemma StepLater(c: Config, s: System, s': System, step: Step)
    requires Inv(c, s) && Next(c, s, s', step)
    ensures Later(s, s')
  {
    match step
    case Deliver(i, m) =>
      if i == LEADER {
        LeaderDelivers(c, s, m);
      } else {
        FollowerDelivers(c, s, i, m);
      }
    case _ =>
  }

  lemma LaterTwice(s: System, t: System, u: System)
    requires Later(s, t) && Later(t, u)
    ensures Later(s, u)
  {
  }

  lemma {:induction false} RunLater(c: Config, run: seq<System>, steps: seq<Step>, j: nat, k: nat)
    requires Run(c, run, steps) && j <= k < |run|
    ensures Later(run[j], run[k])
    decreases k
  {
    Reachable(c, run, steps, j);
    if j < k {
      RunLater(c, run, steps, j, k - 1);
      Reachable(c, run, steps, k - 1);
      assert NextAt(c, run, steps, k - 1);
      StepLater(c, run[k - 1], run[k], steps[k - 1]);
      LaterTwice(run[j], run[k - 1], run[k]);
    }
  }

  /**
   * Agreement: whatever two replicas have executed, at whatever times of a run, one is a prefix of the
   * other.
   */
  lemma Agreement(c: Config, run: seq<System>, steps: seq<Step>, j: nat, a: nat, k: nat, b: nat)
    requires Run(c, run, steps) && j <= k < |run| && a < c.n && b < c.n
    ensures |run[j].replicas| == |run[k].replicas| == c.n
    ensures var x, y := run[j].replicas[a].executed, run[k].replicas[b].executed; x <= y || y <= x
  {
    Reachable(c, run, steps, j);
    Reachable(c, run, steps, k);
    RunLater(c, run, steps, j, k);
    var l := LeaderLog(run[k]);
  }

  /** No replica ever executes two operations that carry one request identity. */
  lemma AtMostOnce(c: Config, run: seq<System>, steps: seq<Step>, k: nat, i: nat, a: nat, b: nat)
    requires Run(c, run, steps) && k < |run| && i < c.n
    ensures |run[k].replicas| == c.n
    ensures var x := run[k].replicas[i].executed; a < b < |x| ==> Id(x[a]) != Id(x[b])
  {
    Reachable(c, run, steps, k);
    var l := LeaderLog(run[k]);
    assert Follows(l, run[k].replicas[i]);
  }

  // What a quorum of replies means.

  /** The replicas whose operation `op` is the leader's, and, when `all`, whose earlier ones are too. */
  function Holders(s: System, op: nat, all: bool): set<nat>
    requires LEADER < |s.replicas|
  {
    set i: nat | i < |s.replicas| && Holds(s, i, op, all)
  }

  predicate Holds(s: System, i: nat, op: nat, all: bool)
    requires LEADER < |s.replicas| && i < |s.replicas|
  {
    && HoldsLeaders(LeaderLog(s), s.replicas[i], op)
    && (all ==> AgreeUpTo(LeaderLog(s), s.replicas[i].log, op))
  }

  predicate Chosen(c: Config, s: System, op: nat, slowpath: bool)
    requires LEADER < |s.replicas|
  {
    1 <= op <= |LeaderLog(s)| && |VotesFor(s.replicas[LEADER], op, slowpath)| >= Required(c, slowpath)
  }

  lemma VotersHoldOn(c: Config, s: System, s': System, op: nat, slowpath: bool)
    requires Inv(c, s) && Later(s, s') && 1 <= op <= |LeaderLog(s)|
    ensures |Holders(s', op, slowpath)| >= |VotesFor(s.replicas[LEADER], op, slowpath)| + 1
  {
    var votes := VotesFor(s.replicas[LEADER], op, slowpath);
    forall i | i in votes
      ensures i != LEADER && i in Holders(s', op, slowpath)
    {
    }
    assert LEADER in Holders(s', op, slowpath);
    SubsetCount(votes + {LEADER}, Holders(s', op, slowpath));
  }

  /**
   * Once enough followers acknowledged an operation, a quorum (a fast quorum on the fast path) holds the
   * leader's request there in that state and in every later one; on the slow path it holds every
   * earlier request as well.
   */
  lemma Durable(c: Config, run: seq<System>, steps: seq<Step>, j: nat, k: nat, op: nat, slowpath: bool)
    requires Run(c, run, steps) && j <= k < |run|
    ensures |run[j].replicas| == |run[k].replicas| == c.n && LEADER < c.n
    ensures Chosen(c, run[j], op, slowpath) ==>
              && op <= |LeaderLog(run[k])| && LeaderLog(run[k])[op - 1] == LeaderLog(run[j])[op - 1]
              && |Holders(run[k], op, slowpath)| >= if slowpath then QuorumSize(c) else FastQuorumSize(c)
  {
    Reachable(c, run, steps, j);
    RunLater(c, run, steps, j, k);
    if Chosen(c, run[j], op, slowpath) {
      VotersHoldOn(c, run[j], run[k], op, slowpath);
    }
  }

  /** In every reachable state the operation at the leader's commit point is on a quorum. */
  lemma CommitPointHeld(c: Config, run: seq<System>, steps: seq<Step>, k: nat)
    requires Run(c, run, steps) && k < |run|
    ensures LEADER < |run[k].replicas|
    ensures var p := run[k].replicas[LEADER].lastCommitted; p > 0 ==> |Holders(run[k], p, false)| >= QuorumSize(c)
  {
    Reachable(c, run, steps, k);
    var r := run[k].replicas[LEADER];
    if r.lastCommitted > 0 {
      var slowpath := |VotesFor(r, r.lastCommitted, true)| >= Required(c, true);
      Durable(c, run, steps, k, k, r.lastCommitted, slowpath);
      SubsetCount(Holders(run[k], r.lastCommitted, slowpath), Holders(run[k], r.lastCommitted, false));
    }
  }

  /** Enough replies were counted for the operation itself or, on the slow path, for a later one. */
  ghost predicate Backed(c: Config, s: System, op: nat)
    requires LEADER < |s.replicas|
  {
    op >= 1 && (Chosen(c, s, op, false) || exists q: nat :: op <= q && Chosen(c, s, q, true))
  }

  /**
   * Which committed operations are on a quorum: those that were the commit point at some time or are backed by
   * counted replies. They are, then and ever after, with the leader's request.
   */
  lemma BackedHeld(c: Config, run: seq<System>, steps: seq<Step>, j: nat, k: nat, op: nat)
    requires Run(c, run, steps) && j <= k < |run|
    ensures |run[j].replicas| == |run[k].replicas| == c.n && LEADER < c.n
    ensures Backed(c, run[j], op) || (op >= 1 && op == run[j].replicas[LEADER].lastCommitted) ==>
              && op <= |LeaderLog(run[j])| && op <= |LeaderLog(run[k])|
              && LeaderLog(run[k])[op - 1] == LeaderLog(run[j])[op - 1]
              && |Holders(run[k], op, false)| >= QuorumSize(c)
  {
    Reachable(c, run, steps, j);
    RunLater(c, run, steps, j, k);
    var r := run[j].replicas[LEADER];
    if op >= 1 && op == r.lastCommitted {
      ChosenHeld(c, run, steps, j, k, op, op, |VotesFor(r, op, true)| >= Required(c, true));
    } else if Backed(c, run[j], op) {
      if Chosen(c, run[j], op, false) {
        ChosenHeld(c, run, steps, j, k, op, op, false);
      } else {
        var q: nat :| op <= q && Chosen(c, run[j], q, true);
        ChosenHeld(c, run, steps, j, k, op, q, true);
      }
    }
  }

  lemma ChosenHeld(c: Config, run: seq<System>, steps: seq<Step>, j: nat, k: nat, op: nat, q: nat, slowpath: bool)
    requires Run(c, run, steps) && j <= k < |run| && LEADER < |run[j].replicas| && Chosen(c, run[j], q, slowpath)
    requires 1 <= op <= q && (slowpath || op == q)
    ensures LEADER < |run[k].replicas| && op <= |LeaderLog(run[j])| && op <= |LeaderLog(run[k])|
    ensures LeaderLog(run[k])[op - 1] == LeaderLog(run[j])[op - 1] && |Holders(run[k], op, false)| >= QuorumSize(c)
  {
    Reachable(c, run, steps, j);
    RunLater(c, run, steps, j, k);
    Durable(c, run, steps, j, k, q, slowpath);
    assert Holders(run[k], q, slowpath) <= Holders(run[k], op, false);
    SubsetCount(Holders(run[k], q, slowpath), Holders(run[k], op, false));
  }

  // Below the commit point the fast path promises less.

  /** One more step of a run. */
  lemma Extend(c: Config, run: seq<System>, steps: seq<Step>, s': System, step: Step)
    requires Run(c, run, steps) && Next(c, run[|run| - 1], s', step)
    ensures Run(c, run + [s'], steps + [step])
  {
    var run', steps' := run + [s'], steps + [step];
    forall k | 0 <= k < |steps'|
      ensures NextAt(c, run', steps', k)
    {
      if k < |steps| {
        assert NextAt(c, run, steps, k);
      }
    }
  }

  /** The state after the step, for a step that can happen. */
  function After(c: Config, s: System, i: nat, m: Message): System
    requires i < |s.replicas| && Deliverable(s, i, m)
  {
    var (r, out) := Receive(c, i, s.replicas[i], m);
    System(s.replicas[i := r], s.sent + out)
  }

  function Requests(): set<Message> {
    {ClientRequest(Request(1, 1, "x")), ClientRequest(Request(2, 1, "y")), ClientRequest(Request(3, 1, "z"))}
  }

  lemma ThreeRequests(c: Config) returns (run: seq<System>, steps: seq<Step>)
    requires c == Config(3, 1)
    ensures Run(c, run, steps) && run[|run| - 1] == System([Initial(), Initial(), Initial()], Requests())
  {
    var rs := [Initial(), Initial(), Initial()];
    var x, y, z := Request(1, 1, "x"), Request(2, 1, "y"), Request(3, 1, "z");
    var s0, s1, s2 := System(rs, {}), System(rs, {ClientRequest(x)}), System(rs, {ClientRequest(x), ClientRequest(y)});
    run, steps := [s0], [];
    Extend(c, run, steps, s1, Invoke(x));
    run, steps := run + [s1], steps + [Invoke(x)];
    Extend(c, run, steps, s2, Invoke(y));
    run, steps := run + [s2], steps + [Invoke(y)];
    Extend(c, run, steps, System(rs, Requests()), Invoke(z));
    run, steps := run + [System(rs, Requests())], steps + [Invoke(z)];
  }

  /** A replica that received one request and then request y. */
  function Received(me: nat, first: Request, then_: Request): Replica {
    Replica([first, then_], 2, if me == LEADER then 2 else 0, 0,
            map[first.clientid := first.clientreqid, then_.clientid := then_.clientreqid], [], map[], map[])
  }

  lemma ReceiveTwo(c: Config, run: seq<System>, steps: seq<Step>, i: nat, first: Request)
    returns (run': seq<System>, steps': seq<Step>)
    requires Run(c, run, steps) && i < |run[|run| - 1].replicas| && run[|run| - 1].replicas[i] == Initial()
    requires ClientRequest(first) in run[|run| - 1].sent && ClientRequest(Request(2, 1, "y")) in run[|run| - 1].sent
    requires first.clientid != 2
    ensures Run(c, run', steps')
    ensures var s, y := run[|run| - 1], Request(2, 1, "y");
            run'[|run'| - 1] == System(s.replicas[i := Received(i, first, y)], s.sent +
              if i == LEADER then {} else {PrepareOK(1, i, false, first), PrepareOK(2, i, false, y)})
  {
    var s, y := run[|run| - 1], Request(2, 1, "y");
    var s1 := After(c, s, i, ClientRequest(first));
    Extend(c, run, steps, s1, Deliver(i, ClientRequest(first)));
    run', steps' := run + [s1], steps + [Deliver(i, ClientRequest(first))];
    var s2 := After(c, s1, i, ClientRequest(y));
    Extend(c, run', steps', s2, Deliver(i, ClientRequest(y)));
    run', steps' := run' + [s2], steps' + [Deliver(i, ClientRequest(y))];
    assert s1.replicas[i].log + [y] == [first, y];
    assert s2.replicas[i] == Received(i, first, y);
  }

  lemma BothVote(c: Config, run: seq<System>, steps: seq<Step>, y: Request)
    returns (run': seq<System>, steps': seq<Step>)
    requires c == Config(3, 1) && Run(c, run, steps) && LEADER < |run[|run| - 1].replicas|
    requires var r := run[|run| - 1].replicas[LEADER];
             InBounds(r) && r.lastCommitted < 2 <= r.lastSlowPath && r.log[1] == y && r.fastOKs == map[]
    requires PrepareOK(2, 1, false, y) in run[|run| - 1].sent && PrepareOK(2, 2, false, y) in run[|run| - 1].sent
    ensures Run(c, run', steps') && LEADER < |run'[|run'| - 1].replicas|
    ensures var rs, rs' := run[|run| - 1].replicas, run'[|run'| - 1].replicas;
            && rs'[1..] == rs[1..] && rs'[LEADER].log == rs[LEADER].log && rs'[LEADER].lastCommitted == 2
  {
    var s, ok1, ok2 := run[|run| - 1], PrepareOK(2, 1, false, y), PrepareOK(2, 2, false, y);
    var s1 := After(c, s, LEADER, ok1);
    Extend(c, run, steps, s1, Deliver(LEADER, ok1));
    run', steps' := run + [s1], steps + [Deliver(LEADER, ok1)];
    var s2 := After(c, s1, LEADER, ok2);
    Extend(c, run', steps', s2, Deliver(LEADER, ok2));
    run', steps' := run' + [s2], steps' + [Deliver(LEADER, ok2)];
  }

  /**
   * A fast-path commit takes everything before it along. Here both followers answered operation 2 as
   * the leader has it, so the leader commits operations 1 and 2, although nobody else holds its
   * operation 1.
   */
  lemma CommittedWithoutQuorum() returns (run: seq<System>, steps: seq<Step>)
    ensures Run(Config(3, 1), run, steps) && LEADER < |run[|run| - 1].replicas|
    ensures run[|run| - 1].replicas[LEADER].lastCommitted == 2
    ensures Holders(run[|run| - 1], 1, false) == {LEADER} && 1 < QuorumSize(Config(3, 1))
  {
    var c, x, y, z := Config(3, 1), Request(1, 1, "x"), Request(2, 1, "y"), Request(3, 1, "z");
    run, steps := ThreeRequests(c);
    run, steps := ReceiveTwo(c, run, steps, 0, x);
    run, steps := ReceiveTwo(c, run, steps, 1, z);
    run, steps := ReceiveTwo(c, run, steps, 2, z);
    ghost var rs := run[|run| - 1].replicas;
    run, steps := BothVote(c, run, steps, y);
  }

}

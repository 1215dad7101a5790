/** A run of NOPaxos in which a sync prepare leads a follower into the assertion of the transfer reply. */
module NopaxosStops {
  import opened Quorums
  import opened Logs
  import opened Nopaxos
  import opened NopaxosRuns
  import opened NopaxosEdges

  /** Replica 0 leads three replicas that start from nothing. */
  const ThreeReplicas := View(Config(3, 1), 0, [], 1, 1)

  function Entered(i: nat): Replica {
    Replica(Core([], {}, 1), 0, 0, true, false, false, map[], {}, 0, [], map[], if i == 0 then {} else {0}, {}, Idle)
  }

  /** Replica `i` takes its step. */
  function Stepped(s: System, i: nat, step: (Replica, set<Message>)): System
    requires i < |s.replicas|
  {
    s.(replicas := s.replicas[i := step.0], sent := s.sent + step.1)
  }

  ghost predicate RunTo(run: seq<System>, steps: seq<Step>, s: System) {
    Run(ThreeReplicas, run, steps) && run[|run| - 1] == s
  }

  lemma Extend(run: seq<System>, steps: seq<Step>, s: System, s': System, step: Step)
    requires RunTo(run, steps, s) && Next(ThreeReplicas, s, s', step)
    ensures RunTo(run + [s'], steps + [step], s')
  {
    var run', steps' := run + [s'], steps + [step];
    forall k | 0 <= k < |steps'|
      ensures NextAt(ThreeReplicas, run', steps', k)
    {
      if k < |steps| {
        assert NextAt(ThreeReplicas, run, steps, k);
      }
    }
  }

  /** Three requests are stamped. */
  lemma Begin(req: Request) returns (run: seq<System>, steps: seq<Step>)
    ensures RunTo(run, steps, System([Entered(0), Entered(1), Entered(2)], [req, req, req], {}))
  {
    var replicas := [Entered(0), Entered(1), Entered(2)];
    var s0, s1 := System(replicas, [], {}), System(replicas, [req], {});
    var s2, s3 := System(replicas, [req, req], {}), System(replicas, [req, req, req], {});
    assert NoopOps([]) == {} && Listed({}, 0) == [];
    run, steps := [s0], [];
    assert Init(ThreeReplicas, s0);
    Extend(run, steps, s0, s1, Stamp(req));
    Extend(run + [s1], steps + [Stamp(req)], s1, s2, Stamp(req));
    Extend(run + [s1] + [s2], steps + [Stamp(req)] + [Stamp(req)], s2, s3, Stamp(req));
    run, steps := run + [s1] + [s2] + [s3], steps + [Stamp(req)] + [Stamp(req)] + [Stamp(req)];
  }

  /** What the leader's log looks like once it received message 1 and gave up message 2. */
  function LeaderLog(req: Request): seq<Slot> {
    [Slot(1, Op(req)), Slot(2, NoOp)]
  }

  lemma LeadFirst(req: Request) returns (r: Replica)
    ensures r == HandleRequest(ThreeReplicas, 0, Entered(0), 1, req).0
    ensures r.core == Core([Slot(1, Op(req))], {}, 2) && r.active && !r.gapCommit && !r.gapRequested
    ensures r.transfer == Idle
  {
    r := HandleRequest(ThreeReplicas, 0, Entered(0), 1, req).0;
  }

  /** Message 3 comes before message 2, and nobody has that. */
  lemma LeadGap(req: Request, r: Replica) returns (t: Replica)
    requires r.core == Core([Slot(1, Op(req))], {}, 2) && r.active && !r.gapCommit && !r.gapRequested
    requires r.transfer == Idle
    ensures t == GapTimeout(ThreeReplicas, 0, HandleRequest(ThreeReplicas, 0, r, 3, req).0).0
    ensures HandleRequest(ThreeReplicas, 0, r, 3, req).0.active
    ensures t.core == Core(LeaderLog(req), {2}, 3) && t.active
  {
    var s := HandleRequest(ThreeReplicas, 0, r, 3, req).0;
    assert s == r.(gapRequested := true);
    t := GapTimeout(ThreeReplicas, 0, s).0;
  }

  lemma LeaderReceives(req: Request) returns (run: seq<System>, steps: seq<Step>, s: System)
    ensures RunTo(run, steps, s) && |s.replicas| == 3 && s.replicas[1] == Entered(1) && s.stamped == [req, req, req]
    ensures var r := s.replicas[0];
            && r.core == Core([Slot(1, Op(req))], {}, 2) && r.active
            && !r.gapCommit && !r.gapRequested && r.transfer == Idle
  {
    run, steps := Begin(req);
    var s0 := run[|run| - 1];
    var r := LeadFirst(req);
    s := Stepped(s0, 0, HandleRequest(ThreeReplicas, 0, Entered(0), 1, req));
    Extend(run, steps, s0, s, Arrive(0, 1));
    run, steps := run + [s], steps + [Arrive(0, 1)];
  }

  lemma LeaderGivesUp(req: Request) returns (run: seq<System>, steps: seq<Step>, s: System)
    ensures RunTo(run, steps, s) && |s.replicas| == 3 && s.replicas[1] == Entered(1)
    ensures s.replicas[0].core == Core(LeaderLog(req), {2}, 3) && s.replicas[0].active
  {
    var s0: System;
    run, steps, s0 := LeaderReceives(req);
    var t := LeadGap(req, s0.replicas[0]);
    var s1 := Stepped(s0, 0, HandleRequest(ThreeReplicas, 0, s0.replicas[0], 3, req));
    Extend(run, steps, s0, s1, Arrive(0, 3));
    s := Stepped(s1, 0, GapTimeout(ThreeReplicas, 0, s1.replicas[0]));
    Extend(run + [s1], steps + [Arrive(0, 3)], s1, s, GapTimer(0));
    run, steps := run + [s1] + [s], steps + [Arrive(0, 3)] + [GapTimer(0)];
  }

  /** The leader announces its sync point. */
  lemma LeaderSyncs(req: Request) returns (run: seq<System>, steps: seq<Step>, s: System)
    ensures RunTo(run, steps, s) && |s.replicas| == 3 && s.replicas[1] == Entered(1) && s.replicas[0].active
    ensures s.replicas[0].core.log == LeaderLog(req) && SyncPrepare(2, [2]) in s.sent
  {
    var s0: System;
    run, steps, s0 := LeaderGivesUp(req);
    assert Listed({2}, 1) == [] && Listed({2}, 2) == [2];
    s := Stepped(s0, 0, SendSyncPrepare(s0.replicas[0]));
    Extend(run, steps, s0, s, SyncTimer);
    run, steps := run + [s], steps + [SyncTimer];
  }

  /**
   * Follower 1, which has nothing, is told of sync point 2 with gap 2 and asks the leader for operations 1 and
   * 2. When the answer arrives it processes operation 1, then the gap, and the entry for 2 stops it.
   */
  lemma SyncPrepareStops(req: Request) returns (run: seq<System>, steps: seq<Step>, s: System)
    ensures RunTo(run, steps, s) && |s.replicas| == 3 && s.replicas[1].active
    ensures var m := StateTransferReply(1, 1, LeaderLog(req));
            && m in s.sent && Readable(1, s.replicas[1], m)
            && !HandleStateTransferReply(ThreeReplicas, 1, s.replicas[1], 1, LeaderLog(req)).ok
  {
    var s0: System;
    run, steps, s0 := LeaderSyncs(req);
    var v, lead, m := ThreeReplicas, s0.replicas[0], SyncPrepare(2, [2]);
    assert InstallGaps(Entered(1).core, [2]) == Core([], {2}, 1) by {
      assert InstallGaps(Entered(1).core, []) == Entered(1).core && [2][..1 - 1] == [];
    }
    SyncTransferStops(v, 1, Entered(1), lead, 2, [2]);
    AsksForRest(v, 1, Entered(1), 2, [2]);
    assert GapKnown({}, [2], 1, 2) by {
      assert 2 in [2];
    }
    var ask := StateTransferRequest(1, 1, 3);
    var s1 := Stepped(s0, 1, HandleSyncPrepare(v, 1, Entered(1), 2, [2]));
    assert ask in s1.sent;
    Extend(run, steps, s0, s1, Deliver(1, m));
    s := Stepped(s1, 0, (lead, HandleStateTransferRequest(lead, 1, 1, 3)));
    Extend(run + [s1], steps + [Deliver(1, m)], s1, s, Deliver(0, ask));
    run, steps := run + [s1] + [s], steps + [Deliver(1, m)] + [Deliver(0, ask)];
    assert lead.core.log[0..2] == LeaderLog(req);
  }
}

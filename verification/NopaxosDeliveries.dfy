/** What each message and timer of NOPaxos does to the replica that gets it, over runs. */
module NopaxosDeliveries {
  import opened Numbers
  import opened Quorums
  import opened Logs
  import opened Nopaxos
  import opened NopaxosCore
  import opened NopaxosSafety
  import opened NopaxosSteps
  import opened NopaxosRuns
  import opened NopaxosEdges
  import opened NopaxosEffects

  /** Replica `i` becomes `r'` and sends `out`; nothing else changes. */
  predicate Becomes(s: System, s': System, i: nat, r': Replica, out: set<Message>) {
    i < |s.replicas| && s' == s.(replicas := s.replicas[i := r'], sent := s.sent + out)
  }

  /** Replica `i` appends the operation, and does what follows from it. */
  ghost predicate Taken(v: View, s: System, s': System, i: nat, msgnum: nat, content: Content) {
    && i < |s.replicas| == |s'.replicas|
    && exists out :: && NopaxosEffects.Appended(v, i, s.replicas[i], msgnum, content, s'.replicas[i], out)
                     && Becomes(s, s', i, s'.replicas[i], out)
  }

  lemma ProcessTaken(v: View, s: System, s': System, i: nat, msgnum: nat, content: Content)
    requires i < |s.replicas|
    requires var (r', out) := Process(v, i, s.replicas[i], msgnum, content); Becomes(s, s', i, r', out)
    ensures Taken(v, s, s', i, msgnum, content)
  {
    var (r', out) := Process(v, i, s.replicas[i], msgnum, content);
    ProcessAppends(v, i, s.replicas[i], msgnum, content);
    assert r' == s'.replicas[i];
  }

  lemma BecomesSame(s: System, s': System, i: nat)
    requires i < |s.replicas| && Becomes(s, s', i, s.replicas[i], {})
    ensures s' == s
  {
    assert s.replicas[i := s.replicas[i]] == s.replicas && s.sent + {} == s.sent;
  }

  lemma CoreAt(v: View, run: seq<System>, steps: seq<Step>, k: nat, i: nat)
    requires Run(v, run, steps) && k < |run| && i < |run[k].replicas|
    ensures |run[k].replicas| == v.c.n && v.leader < v.c.n && EnvOk(EnvOf(v, run[k]))
    ensures RepOk(EnvOf(v, run[k]), i, run[k].replicas[i])
  {
    Reachable(v, run, steps, k);
  }

  lemma MessageAt(v: View, run: seq<System>, steps: seq<Step>, k: nat, m: Message)
    requires Run(v, run, steps) && k < |run| && m in run[k].sent
    ensures v.leader < |run[k].replicas| && MessageOk(EnvOf(v, run[k]), run[k].replicas, m)
  {
    Reachable(v, run, steps, k);
  }

  /** The number of the operation that replica `i` needs next. */
  function Due(v: View, r: Replica): int {
    NumberOf(v, |r.core.log| + 1)
  }

  lemma ArriveAt(v: View, run: seq<System>, steps: seq<Step>, k: nat, i: nat, n: nat)
    requires Run(v, run, steps) && k < |steps| && steps[k] == Arrive(i, n)
    ensures i < |run[k].replicas| && 1 <= n <= |run[k].stamped|
    ensures var (r', out) := HandleRequest(v, i, run[k].replicas[i], n, run[k].stamped[n - 1]);
            Becomes(run[k], run[k + 1], i, r', out)
    ensures var next := run[k].replicas[i].core.next;
            var due := Due(v, run[k].replicas[i]);
            (n < next <==> n < due) && (n > next && next != 1 <==> n > due)
  {
    assert NextAt(v, run, steps, k);
    CoreAt(v, run, steps, k, i);
  }

  /**
   * A numbered request is appended exactly when it is the one that is due and no gap is being decided; a later one
   * makes the replica ask, once, for what it misses; an earlier one does nothing.
   */
  lemma RequestEffect(v: View, run: seq<System>, steps: seq<Step>, k: nat, i: nat, n: nat)
    requires Run(v, run, steps) && k < |steps| && steps[k] == Arrive(i, n)
    ensures i < |run[k].replicas| && 1 <= n <= |run[k].stamped|
    ensures var r := run[k].replicas[i];
            if !r.gapCommit && n == Due(v, r) then
              Taken(v, run[k], run[k + 1], i, n, Op(run[k].stamped[n - 1]))
            else if !r.gapCommit && n > Due(v, r) && !r.gapRequested then
              Becomes(run[k], run[k + 1], i, r.(gapRequested := true), {GapRequest(|r.core.log| + 1)})
            else run[k + 1] == run[k]
  {
    ArriveAt(v, run, steps, k, i, n);
    var r := run[k].replicas[i];
    if !r.gapCommit && n == Due(v, r) {
      ProcessTaken(v, run[k], run[k + 1], i, n, Op(run[k].stamped[n - 1]));
    } else if r.gapCommit || n < Due(v, r) || r.gapRequested {
      BecomesSame(run[k], run[k + 1], i);
    }
  }

  /** A replica tells what it has, or that it waits for the same operation, and otherwise says nothing. */
  lemma GapRequestEffect(v: View, run: seq<System>, steps: seq<Step>, k: nat, i: nat, op: nat)
    requires Run(v, run, steps) && k < |steps| && steps[k] == Deliver(i, GapRequest(op))
    ensures i < |run[k].replicas| && op >= 1
    ensures var r := run[k].replicas[i];
            Becomes(run[k], run[k + 1], i, r, if op <= |r.core.log| then {GapFound(op, r.core.log[op - 1].content)}
                                              else if r.gapRequested && op == |r.core.log| + 1 then {GapMissing(op, i)}
                                              else {})
  {
    DeliverAt(v, run, steps, k, i, steps[k].m);
    MessageAt(v, run, steps, k, steps[k].m);
  }

  /** An operation that another replica has is appended exactly when it is the next one and no gap is being decided. */
  lemma GapFoundEffect(v: View, run: seq<System>, steps: seq<Step>, k: nat, i: nat, op: nat, content: Content)
    requires Run(v, run, steps) && k < |steps| && steps[k] == Deliver(i, GapFound(op, content))
    ensures i < |run[k].replicas|
    ensures var r := run[k].replicas[i];
            if op == |r.core.log| + 1 && !r.gapCommit then
              r.core.next == Due(v, r) && Taken(v, run[k], run[k + 1], i, r.core.next, content)
            else run[k + 1] == run[k]
  {
    DeliverAt(v, run, steps, k, i, steps[k].m);
    MessageAt(v, run, steps, k, steps[k].m);
    CoreAt(v, run, steps, k, i);
    var r := run[k].replicas[i];
    if op == |r.core.log| + 1 && !r.gapCommit {
      ProcessTaken(v, run[k], run[k + 1], i, r.core.next, content);
    } else {
      BecomesSame(run[k], run[k + 1], i);
    }
  }

  /** What a follower becomes when it is told that `op` was given up: what it has there is replaced by the leader's. */
  ghost predicate GivenUp(v: View, l: seq<Slot>, i: nat, r: Replica, op: nat, r': Replica, out: set<Message>) {
    if op <= |r.core.log| then
      && 1 <= op <= |l| && out == {GapCommitReply(op, i)}
      && r' == r.(core := Core(r.core.log[op - 1 := l[op - 1]], r.core.gaps + {op}, r.core.next))
    else if op == |r.core.log| + 1 then
      exists more :: && out == more + {GapCommitReply(op, i)}
                     && NopaxosEffects.Appended(v, i, r, r.core.next, NoOp, r', more)
    else r' == r.(core := r.core.(gaps := r.core.gaps + {op})) && out == {}
  }

  lemma NoopIsLeaders(e: Env, k: Core, op: nat)
    requires EnvOk(e) && CoreOk(e.v, e.stamped, e.l, k) && GapOk(e.v, e.l, op) && op <= |k.log|
    ensures MarkNoop(k.(gaps := k.gaps + {op}), op) == Core(k.log[op - 1 := e.l[op - 1]], k.gaps + {op}, k.next)
  {
    assert SlotOk(e.v, e.stamped, k.log, op - 1) && SlotOk(e.v, e.stamped, e.l, op - 1);
  }

  lemma GapCommitGivesUp(e: Env, i: nat, r: Replica, op: nat)
    requires EnvOk(e) && RepOk(e, i, r) && GapOk(e.v, e.l, op)
    ensures var (r', out) := HandleGapCommit(e.v, i, r, op); GivenUp(e.v, e.l, i, r, op, r', out)
  {
    if op <= |r.core.log| {
      NoopIsLeaders(e, r.core, op);
    } else if op == |r.core.log| + 1 {
      ProcessAppends(e.v, i, r, r.core.next, NoOp);
      var (r', more) := Process(e.v, i, r, r.core.next, NoOp);
      assert NopaxosEffects.Appended(e.v, i, r, r.core.next, NoOp, r', more);
    }
  }

  /** A follower takes note of a given-up operation always, and confirms it exactly when its log has reached it. */
  lemma GapCommitEffect(v: View, run: seq<System>, steps: seq<Step>, k: nat, i: nat, op: nat)
    requires Run(v, run, steps) && k < |steps| && steps[k] == Deliver(i, GapCommit(op)) && i != v.leader
    ensures v.leader < |run[k].replicas| && i < |run[k].replicas| == |run[k + 1].replicas|
    ensures var r, r' := run[k].replicas[i], run[k + 1].replicas[i];
            exists out :: && GivenUp(v, Lead(v, run[k]).core.log, i, r, op, r', out)
                          && Becomes(run[k], run[k + 1], i, r', out)
  {
    DeliverAt(v, run, steps, k, i, steps[k].m);
    MessageAt(v, run, steps, k, steps[k].m);
    CoreAt(v, run, steps, k, i);
    GapCommitGivesUp(EnvOf(v, run[k]), i, run[k].replicas[i], op);
    var (r', out) := HandleGapCommit(v, i, run[k].replicas[i], op);
    assert r' == run[k + 1].replicas[i] && Becomes(run[k], run[k + 1], i, r', out);
    assert GivenUp(v, Lead(v, run[k]).core.log, i, run[k].replicas[i], op, r', out);
  }

  /** A sync point is the end of the leader's log, with exactly the no-ops it has. */
  lemma SyncTimerEffect(v: View, run: seq<System>, steps: seq<Step>, k: nat)
    requires Run(v, run, steps) && k < |steps| && steps[k] == SyncTimer
    ensures v.leader < |run[k].replicas| == |run[k + 1].replicas|
    ensures var r, r' := Lead(v, run[k]), Lead(v, run[k + 1]);
            && r' == r.(syncPoint := |r.core.log|, syncGaps := r'.syncGaps)
            && (forall op: nat :: op in r'.syncGaps <==> IsNoOp(r.core.log, op))
            && Becomes(run[k], run[k + 1], v.leader, r', {SyncPrepare(|r.core.log|, r'.syncGaps)})
  {
    assert NextAt(v, run, steps, k);
    CoreAt(v, run, steps, k, v.leader);
    var r := Lead(v, run[k]);
    forall op: nat
      ensures op in Listed(r.core.gaps, |r.core.log|) <==> IsNoOp(r.core.log, op)
    {
      assert 1 <= op <= |r.core.log| ==> (op in r.core.gaps <==> IsNoOp(r.core.log, op));
    }
  }

  /** The follower after hearing that `p` is committed. */
  predicate Heard(r: Replica, p: nat, r': Replica) {
    if p in r.prepares && p <= |r.core.log| then
      r' == r.(committed := p, executed := Max(r.executed, p), prepares := r.prepares - {p}, commits := r.commits - {p})
    else r' == r.(commits := r.commits + {p})
  }

  lemma SyncCommitHeard(v: View, i: nat, r: Replica, p: nat)
    requires i != v.leader && r.committed < p
    ensures var (r', out) := HandleSyncCommit(v, i, r, p);
            Heard(r, p, r') && out == if p in r.prepares then {} else {SyncPrepareRequest}
  {
    assert r.commits + {p} - {p} == r.commits - {p};
  }

  lemma PreparedMatches(e: Env, i: nat, r: Replica, p: nat)
    requires EnvOk(e) && RepOk(e, i, r) && r.active && p in r.prepares && p <= |r.core.log|
    ensures Match(e.l, r.core.log, p)
  {
    CoversMatch(e.v, e.stamped, e.l, r.core, p);
  }

  /**
   * A follower commits a point exactly when it is new to it, it was prepared and its log has reached it, and its log
   * is the leader's up to there; when the point was not prepared it asks for that.
   */
  lemma SyncCommitEffect(v: View, run: seq<System>, steps: seq<Step>, k: nat, i: nat, p: nat)
    requires Run(v, run, steps) && k < |steps| && steps[k] == Deliver(i, SyncCommit(p)) && i != v.leader
    ensures v.leader < |run[k].replicas| && i < |run[k].replicas| == |run[k + 1].replicas|
    ensures var r, r' := run[k].replicas[i], run[k + 1].replicas[i];
            if p <= r.committed then run[k + 1] == run[k]
            else
              && Heard(r, p, r')
              && (p in r.prepares && p <= |r.core.log| ==> Match(Lead(v, run[k]).core.log, r.core.log, p))
              && Becomes(run[k], run[k + 1], i, r', if p in r.prepares then {} else {SyncPrepareRequest})
  {
    DeliverAt(v, run, steps, k, i, steps[k].m);
    CoreAt(v, run, steps, k, i);
    var r := run[k].replicas[i];
    if p <= r.committed {
      BecomesSame(run[k], run[k + 1], i);
    } else {
      SyncCommitHeard(v, i, r, p);
      assert NextAt(v, run, steps, k);
      if p in r.prepares && p <= |r.core.log| {
        PreparedMatches(EnvOf(v, run[k]), i, r, p);
      }
    }
  }

  /** Asked for a sync point, the leader repeats it, with its commit if it is committed. */
  lemma SyncPrepareRequestEffect(v: View, run: seq<System>, steps: seq<Step>, k: nat)
    requires Run(v, run, steps) && k < |steps| && steps[k] == Deliver(v.leader, SyncPrepareRequest)
    ensures v.leader < |run[k].replicas|
    ensures var r := Lead(v, run[k]);
            Becomes(run[k], run[k + 1], v.leader, r,
                    {SyncPrepare(r.syncPoint, r.syncGaps)} +
                    if r.syncPoint <= r.committed then {SyncCommit(r.syncPoint)} else {})
  {
    DeliverAt(v, run, steps, k, v.leader, steps[k].m);
  }

  /** The leader sends exactly the part of its log that is asked for, and nothing unless it has all of it. */
  lemma TransferRequestEffect(v: View, run: seq<System>, steps: seq<Step>, k: nat, from: nat, begin: nat, end: nat)
    requires Run(v, run, steps) && k < |steps| && steps[k] == Deliver(v.leader, StateTransferRequest(from, begin, end))
    ensures v.leader < |run[k].replicas|
    ensures var r := Lead(v, run[k]);
            var l := r.core.log;
            Becomes(run[k], run[k + 1], v.leader, r,
                    if 1 <= begin < end <= |l| + 1
                    then {StateTransferReply(from, begin, l[begin - 1..end - 1])} else {})
  {
    DeliverAt(v, run, steps, k, v.leader, steps[k].m);
  }

  /** When it has waited long enough, the leader gives the operation up and a follower asks again. */
  lemma GapTimerEffect(v: View, run: seq<System>, steps: seq<Step>, k: nat, i: nat)
    requires Run(v, run, steps) && k < |steps| && steps[k] == GapTimer(i)
    ensures i < |run[k].replicas| == |run[k + 1].replicas|
    ensures var r, r' := run[k].replicas[i], run[k + 1].replicas[i];
            var op := |r.core.log| + 1;
            if !r.gapRequested then run[k + 1] == run[k]
            else if i == v.leader then
              GivesUp(r, r', {GapCommit(op)}) && Becomes(run[k], run[k + 1], i, r', {GapCommit(op)})
            else Becomes(run[k], run[k + 1], i, r, {GapRequest(op)})
  {
    assert NextAt(v, run, steps, k);
    var r := run[k].replicas[i];
    if !r.gapRequested {
      BecomesSame(run[k], run[k + 1], i);
    } else if i == v.leader {
      LeadAt(v, run, steps, k);
      AgreementGivesUp(v, r);
    }
  }

  /** The other timers repeat what still has no answer, and leaving the view forgets the gaps beyond the log. */
  lemma OtherTimerEffect(v: View, run: seq<System>, steps: seq<Step>, k: nat, i: nat)
    requires Run(v, run, steps) && k < |steps|
    requires steps[k] == TransferTimer(i) || steps[k] == LeaveView(i) || (steps[k] == GapCommitTimer && i == v.leader)
    ensures i < |run[k].replicas| == |run[k + 1].replicas|
    ensures var r, r' := run[k].replicas[i], run[k + 1].replicas[i];
            match steps[k]
            case TransferTimer(_) =>
              Becomes(run[k], run[k + 1], i, r,
                      if r.transfer.Transfer? && r.transfer.requested
                      then {StateTransferRequest(i, r.transfer.begin, r.transfer.end)} else {})
            case GapCommitTimer =>
              Becomes(run[k], run[k + 1], i, r, if r.gapCommit then {GapCommit(|r.core.log|)} else {})
            case _ =>
              && r' == r.(active := false, core := Core(r.core.log, r'.core.gaps, r.core.next))
              && (forall g :: g in r'.core.gaps <==> g in r.core.gaps && g <= |r.core.log|)
              && Becomes(run[k], run[k + 1], i, r', {})
  {
    assert NextAt(v, run, steps, k);
  }

  /** Messages that are not for the replica's role, or not for it, do nothing. */
  lemma OthersIgnored(v: View, run: seq<System>, steps: seq<Step>, k: nat, i: nat, m: Message)
    requires Run(v, run, steps) && k < |steps| && steps[k] == Deliver(i, m)
    requires if i == v.leader then m.Reply? || m.GapCommit? || m.SyncPrepare? || m.SyncCommit? || m.StateTransferReply?
             else || m.Reply? || m.GapMissing? || m.GapCommitReply? || m.SyncPrepareReply? || m.SyncPrepareRequest?
                  || m.StateTransferRequest? || (m.StateTransferReply? && m.dst != i)
    ensures run[k + 1] == run[k]
  {
    DeliverAt(v, run, steps, k, i, m);
    BecomesSame(run[k], run[k + 1], i);
  }

  // A sync point.

  /** The operation after the log is never a known gap: known gaps are appended as soon as they come next. */
  predicate AtRest(k: Core) {
    |k.log| + 1 !in k.gaps
  }

  lemma ProcessRests(v: View, me: nat, r: Replica, msgnum: nat, content: Content)
    ensures AtRest(Process(v, me, r, msgnum, content).0.core)
  {
    ProcessAppends(v, me, r, msgnum, content);
  }

  /** What installing gaps appends are gaps only. */
  predicate OnlyGaps(k: Core, k': Core) {
    && k.gaps <= k'.gaps && |k.log| <= |k'.log| && (AtRest(k) ==> AtRest(k'))
    && forall op: nat :: |k.log| < op <= |k'.log| ==> op in k'.gaps
  }

  lemma InstallGapOnly(k: Core, gap: nat)
    requires gap >= 1
    ensures OnlyGaps(k, InstallGap(k, gap))
  {
    var k1 := k.(gaps := k.gaps + {gap});
    if gap !in k.gaps && |k.log| + 1 == gap {
      var k2 := Place(k1, k1.next, NoOp);
      PlaceGrows(k1, k1.next, NoOp);
      var mid := Put(k1, k1.next, NoOp);
      assert mid.gaps == k1.gaps && Rested(mid, k2);
      forall op: nat | |k.log| < op <= |k2.log|
        ensures op in k2.gaps
      {
        if op > gap {
          assert GapSlot(mid, |mid.log|, k2.log, op - 1);
        }
      }
    }
  }

  lemma {:induction false} InstallGapsOnly(k: Core, gaps: seq<nat>)
    requires forall i :: 0 <= i < |gaps| ==> gaps[i] >= 1
    ensures OnlyGaps(k, InstallGaps(k, gaps))
    decreases |gaps|
  {
    if gaps != [] {
      var k1 := InstallGaps(k, gaps[..|gaps| - 1]);
      InstallGapsOnly(k, gaps[..|gaps| - 1]);
      InstallGapOnly(k1, gaps[|gaps| - 1]);
    }
  }

  lemma {:induction false} InstallRests(v: View, me: nat, r: Replica, op: nat, entries: seq<Slot>)
    requires AtRest(r.core)
    ensures AtRest(Install(v, me, r, op, entries).replica.core)
    decreases |entries|
  {
    if entries != [] && op == |r.core.log| + 1 {
      ProcessRests(v, me, r, entries[0].msgnum, entries[0].content);
      InstallRests(v, me, Process(v, me, r, entries[0].msgnum, entries[0].content).0, op + 1, entries[1..]);
    }
  }

  lemma SyncPrepareRests(v: View, i: nat, r: Replica, p: nat, gaps: seq<nat>)
    requires (forall k :: 0 <= k < |gaps| ==> gaps[k] >= 1) && AtRest(r.core)
    ensures AtRest(HandleSyncPrepare(v, i, r, p, gaps).0.core)
  {
    if r.committed < p {
      InstallGapsOnly(r.core, gaps);
      AdvanceCore(v, i, r.(prepares := r.prepares + {p}), InstallGaps(r.core, gaps));
    }
  }

  lemma GapsRest(v: View, i: nat, r: Replica, m: Message)
    requires AtRest(r.core) && Readable(i, r, m) && (m.GapFound? || m.GapMissing?)
    ensures AtRest(Receive(v, i, r, m).0.core)
  {
    match m
    case GapFound(op, content) => ProcessRests(v, i, r, r.core.next, content);
    case GapMissing(op, replica) => AgreementRests(v, r.(missing := AddVote(r.missing, op, replica)));
  }

  lemma GapCommitRests(v: View, i: nat, r: Replica, op: nat)
    requires AtRest(r.core) && op >= 1
    ensures AtRest(HandleGapCommit(v, i, r, op).0.core)
  {
    if op == |r.core.log| + 1 {
      ProcessRests(v, i, r, r.core.next, NoOp);
    }
  }

  lemma AgreementRests(v: View, r: Replica)
    ensures AtRest(StartGapAgreement(v, r).0.core)
  {
    var s := r.(missing := map[], gapRequested := false, gapCommit := true, gapOKs := {});
    ProcessRests(v, v.leader, s, s.core.next, NoOp);
  }

  lemma ReceiveRests(v: View, i: nat, r: Replica, m: Message)
    requires AtRest(r.core) && Readable(i, r, m)
    ensures AtRest(Receive(v, i, r, m).0.core)
  {
    match m
    case GapFound(_, _) => GapsRest(v, i, r, m);
    case GapMissing(_, _) => GapsRest(v, i, r, m);
    case GapCommit(op) => GapCommitRests(v, i, r, op);
    case SyncPrepare(p, gaps) => SyncPrepareRests(v, i, r, p, gaps);
    case StateTransferReply(dst, begin, entries) =>
      var skip := |r.core.log| + 1 - begin;
      if i != v.leader && dst == i && |entries| > skip {
        InstallRests(v, i, r, |r.core.log| + 1, entries[skip..]);
      }
    case _ =>
  }

  lemma StepRests(v: View, s: System, s': System, step: Step, i: nat)
    requires Next(v, s, s', step) && i < |s.replicas| && AtRest(s.replicas[i].core)
    ensures i < |s'.replicas| && AtRest(s'.replicas[i].core)
  {
    var r := s.replicas[i];
    match step
    case Arrive(j, n) => ProcessRests(v, i, r, n, Op(s.stamped[n - 1]));
    case Deliver(j, m) =>
      if j == i {
        ReceiveRests(v, i, r, m);
      }
    case GapTimer(j) => AgreementRests(v, r);
    case _ =>
  }

  lemma {:induction false} RunRests(v: View, run: seq<System>, steps: seq<Step>, k: nat, i: nat)
    requires Run(v, run, steps) && k < |run| && i < v.c.n
    ensures i < |run[k].replicas| && AtRest(run[k].replicas[i].core)
    decreases k
  {
    if k == 0 {
      assert Entering(v, i, run[0].replicas[i]);
    } else {
      RunRests(v, run, steps, k - 1, i);
      assert NextAt(v, run, steps, k - 1);
      StepRests(v, run[k - 1], run[k], steps[k - 1], i);
    }
  }

  /** The gaps are installed: where one is listed stands the leader's no-op, and the gaps that come next follow. */
  predicate GapsIn(l: seq<Slot>, k: Core, gaps: seq<nat>, k': Core) {
    && k'.gaps == k.gaps + Members(gaps) && AtRest(k') && |k.log| <= |k'.log| && k'.next == k.next + |k'.log| - |k.log|
    && forall j :: 0 <= j < |k'.log| ==> GapIn(l, k, gaps, k', j)
  }

  predicate GapIn(l: seq<Slot>, k: Core, gaps: seq<nat>, k': Core, j: nat)
    requires j < |k'.log|
  {
    if j < |k.log| && j + 1 !in gaps then k'.log[j] == k.log[j]
    else j + 1 in k'.gaps && j < |l| && k'.log[j] == l[j]
  }

  lemma SlotsDecided(e: Env, k: Core, k': Core, j: nat)
    requires EnvOk(e) && CoreOk(e.v, e.stamped, e.l, k) && CoreOk(e.v, e.stamped, e.l, k') && k.gaps <= k'.gaps
    requires j < |k'.log|
    ensures j + 1 in k'.gaps ==> j < |e.l| && k'.log[j] == e.l[j]
    ensures j < |k.log| && (j + 1 in k.gaps <==> j + 1 in k'.gaps) ==> k'.log[j] == k.log[j]
  {
    var op := j + 1;
    assert SlotOk(e.v, e.stamped, k'.log, j) && (IsNoOp(k'.log, op) <==> op in k'.gaps);
    if j < |k.log| {
      assert SlotOk(e.v, e.stamped, k.log, j) && (IsNoOp(k.log, op) <==> op in k.gaps);
    }
    if op in k'.gaps {
      assert GapOk(e.v, e.l, op) && SlotOk(e.v, e.stamped, e.l, j);
    }
  }

  lemma NextMoves(e: Env, k: Core, k': Core)
    requires EnvOk(e) && CoreOk(e.v, e.stamped, e.l, k) && CoreOk(e.v, e.stamped, e.l, k') && OnlyGaps(k, k')
    ensures k'.next == k.next + |k'.log| - |k.log|
  {
    var first := |k.log| + 1;
    if |k'.log| > |k.log| {
      assert first in k'.gaps && GapOk(e.v, e.l, first);
    }
  }

  lemma InstallGapsIn(e: Env, k: Core, gaps: seq<nat>, p: nat)
    requires EnvOk(e) && CoreOk(e.v, e.stamped, e.l, k) && SyncGapsOk(e, p, gaps) && AtRest(k)
    ensures GapsIn(e.l, k, gaps, InstallGaps(k, gaps))
  {
    var k' := InstallGaps(k, gaps);
    InstallGapsOk(e.v, e.stamped, e.l, k, gaps);
    InstallGapsOnly(k, gaps);
    InstallGapsAll(k, gaps);
    NextMoves(e, k, k');
    forall j | 0 <= j < |k'.log|
      ensures GapIn(e.l, k, gaps, k', j)
    {
      SlotsDecided(e, k, k', j);
      assert j + 1 in k'.gaps <==> j + 1 in k.gaps || j + 1 in gaps;
    }
  }

  /** The log has become `k`, longer or as long as it was. */
  predicate MovedTo(v: View, me: nat, r: Replica, k: Core, r': Replica, out: set<Message>) {
    if |k.log| > |r.core.log| then GrownTo(v, me, r, k, r', out) else r' == r.(core := k) && out == {}
  }

  lemma AdvanceMoves(v: View, me: nat, r: Replica, k: Core)
    requires |k.log| >= |r.core.log|
    ensures var (r', out) := Advance(v, me, r, k); MovedTo(v, me, r, k, r', out)
  {
    if |k.log| > |r.core.log| {
      AdvanceGrows(v, me, r, k);
    }
  }

  /** With the gaps in place, the point is complete, or what is missing is asked for if it is near. */
  predicate Concluded(v: View, me: nat, s: Replica, p: nat, r': Replica, out: set<Message>) {
    var next := |s.core.log| + 1;
    if p < next then Completed(v, me, s, p, r', out)
    else
      var near := p + 1 - next <= MAX_SYNC_TRANSFER_OPS;
      && r' == s.(transfer := Transfer(next, p + 1, near || (s.transfer.Transfer? && s.transfer.requested)))
      && out == if near then {StateTransferRequest(me, next, p + 1)} else {}
  }

  /** A sync point was taken up: its gaps installed, and what it takes to complete it done. */
  ghost predicate TakenUp(v: View, l: seq<Slot>, me: nat, r: Replica, p: nat, gaps: seq<nat>, r': Replica,
                          out: set<Message>) {
    exists k, s, some, more :: && GapsIn(l, r.core, gaps, k)
                               && MovedTo(v, me, r.(prepares := r.prepares + {p}), k, s, some)
                               && Concluded(v, me, s, p, r', more) && out == some + more
  }

  lemma SyncPrepareTakesUp(e: Env, me: nat, r: Replica, p: nat, gaps: seq<nat>)
    requires EnvOk(e) && CoreOk(e.v, e.stamped, e.l, r.core) && SyncGapsOk(e, p, gaps) && AtRest(r.core)
    requires r.committed < p
    ensures var (r', out) := HandleSyncPrepare(e.v, me, r, p, gaps); TakenUp(e.v, e.l, me, r, p, gaps, r', out)
  {
    var k, r1 := InstallGaps(r.core, gaps), r.(prepares := r.prepares + {p});
    InstallGapsIn(e, r.core, gaps, p);
    AdvanceMoves(e.v, me, r1, k);
    var (s, some) := Advance(e.v, me, r1, k);
    var (r', more) := AfterGaps(e.v, me, s, p);
    ConcludedBy(e.v, me, s, p);
    assert GapsIn(e.l, r.core, gaps, k) && MovedTo(e.v, me, r1, k, s, some) && Concluded(e.v, me, s, p, r', more);
  }

  lemma ConcludedBy(v: View, me: nat, s: Replica, p: nat)
    ensures var (r', more) := AfterGaps(v, me, s, p); Concluded(v, me, s, p, r', more)
  {
    SyncCompletes(v, me, s, p);
  }

  /** A follower takes up a sync point exactly when it is beyond what it has committed. */
  lemma SyncPrepareEffect(v: View, run: seq<System>, steps: seq<Step>, k: nat, i: nat, p: nat, gaps: seq<nat>)
    requires Run(v, run, steps) && k < |steps| && steps[k] == Deliver(i, SyncPrepare(p, gaps)) && i != v.leader
    ensures v.leader < |run[k].replicas| && i < |run[k].replicas| == |run[k + 1].replicas|
    ensures var r, r', l := run[k].replicas[i], run[k + 1].replicas[i], Lead(v, run[k]).core.log;
            if p <= r.committed then run[k + 1] == run[k]
            else exists out :: TakenUp(v, l, i, r, p, gaps, r', out) && Becomes(run[k], run[k + 1], i, r', out)
  {
    DeliverAt(v, run, steps, k, i, steps[k].m);
    MessageAt(v, run, steps, k, steps[k].m);
    CoreAt(v, run, steps, k, i);
    RunRests(v, run, steps, k, i);
    var r := run[k].replicas[i];
    if p <= r.committed {
      BecomesSame(run[k], run[k + 1], i);
    } else {
      SyncPrepareTakesUp(EnvOf(v, run[k]), i, r, p, gaps);
      var (r', out) := HandleSyncPrepare(v, i, r, p, gaps);
      assert r' == run[k + 1].replicas[i] && Becomes(run[k], run[k + 1], i, r', out);
      assert TakenUp(v, Lead(v, run[k]).core.log, i, r, p, gaps, r', out);
    }
  }

  // State transfer.

  /** The operation of the leader's log is answered when it is brought, unless it is a no-op. */
  function Answer(l: seq<Slot>, me: nat, op: nat): set<Message>
    requires 1 <= op <= |l|
  {
    if l[op - 1].content.NoOp? then {} else {Reply(op, me, Id(l[op - 1].content.req))}
  }

  predicate IsAnswer(l: seq<Slot>, me: nat, lo: nat, hi: nat, m: Message) {
    exists op :: lo < op <= hi && op <= |l| && m in Answer(l, me, op)
  }

  predicate Reached(r: Replica, r': Replica) {
    r.transfer.Transfer? && |r.core.log| < r.transfer.end <= |r'.core.log|
  }

  /** What a transfer changes of a replica besides its log. */
  predicate TransferKept(r: Replica, r': Replica) {
    if Reached(r, r') then
      var p := r.transfer.end - 1;
      && r'.transfer == r.transfer.(requested := false)
      && r'.committed == (if p in r.commits then Max(r.committed, p) else r.committed)
      && r'.prepares == (if p in r.commits then r.prepares - {p} else r.prepares) && r'.commits == r.commits - {p}
    else
      && r'.transfer == r.transfer && r'.committed == r.committed && r'.prepares == r.prepares
      && r'.commits == r.commits
  }

  ghost predicate TransferSays(l: seq<Slot>, me: nat, r: Replica, r': Replica, out: set<Message>) {
    forall m :: m in out <==>
                || IsAnswer(l, me, |r.core.log|, |r'.core.log|, m)
                || (Reached(r, r') && r.transfer.end - 1 !in r.commits && m == SyncPrepareReply(r.transfer.end - 1, me))
  }

  /** A part of the leader's log was appended, answered, and completed the point that waited for it, if it got there. */
  ghost predicate Brought(l: seq<Slot>, me: nat, r: Replica, r': Replica, out: set<Message>) {
    && |r.core.log| <= |r'.core.log| && (|r.core.log| < |r'.core.log| ==> |r'.core.log| <= |l|)
    && (|r.core.log| < |r'.core.log| ==> r'.core.log == r.core.log + l[|r.core.log|..|r'.core.log|])
    && (|r.core.log| == |r'.core.log| ==> r'.core.log == r.core.log)
    && TransferKept(r, r') && TransferSays(l, me, r, r', out)
  }

  lemma GrownFollows(e: Env, k: Core, slot: Slot, k': Core)
    requires EnvOk(e) && CoreOk(e.v, e.stamped, e.l, k) && CoreOk(e.v, e.stamped, e.l, k') && |k.log| < |e.l|
    requires slot == e.l[|k.log|] && Grown(k, slot.msgnum, slot.content, k')
    ensures |k.log| < |k'.log| <= |e.l| && k'.log == k.log + e.l[|k.log|..|k'.log|]
    ensures |k.log| + 1 in k.gaps ==> slot.content == NoOp
    ensures forall op: nat :: |k.log| + 1 < op <= |k'.log| ==> IsNoOp(e.l, op)
  {
    var op := |k.log| + 1;
    if op in k.gaps {
      assert GapOk(e.v, e.l, op);
    }
    var mid := Core(k.log + [slot], if slot.content == NoOp then k.gaps + {op} else k.gaps, slot.msgnum + 1);
    assert Rested(mid, k');
    forall n: nat | op < n <= |k'.log|
      ensures n <= |e.l| && k'.log[n - 1] == e.l[n - 1] && IsNoOp(e.l, n)
    {
      assert GapSlot(mid, op, k'.log, n - 1);
      SlotsDecided(e, k, k', n - 1);
    }
    assert |k'.log| > op ==> IsNoOp(e.l, |k'.log|);
    assert forall j :: op <= j < |k'.log| ==> k'.log[j] == e.l[j] by {
      forall j | op <= j < |k'.log|
        ensures k'.log[j] == e.l[j]
      {
        assert IsNoOp(e.l, j + 1);
      }
    }
  }

  lemma AppendedKept(v: View, me: nat, r: Replica, msgnum: nat, content: Content, r': Replica, out: set<Message>)
    requires me != v.leader && NopaxosEffects.Appended(v, me, r, msgnum, content, r', out)
    ensures TransferKept(r, r')
    ensures var op := |r.core.log| + 1;
            var ack := if Reached(r, r') && r.transfer.end - 1 !in r.commits
                       then {SyncPrepareReply(r.transfer.end - 1, me)} else {};
            out == ack + if op in r.core.gaps || content == NoOp then {} else {Reply(op, me, Id(content.req))}
  {
  }

  lemma ProcessBrings(e: Env, me: nat, r: Replica, slot: Slot)
    requires EnvOk(e) && CoreOk(e.v, e.stamped, e.l, r.core) && me != e.v.leader
    requires |r.core.log| < |e.l| && slot == e.l[|r.core.log|]
    requires CoreOk(e.v, e.stamped, e.l, Process(e.v, me, r, slot.msgnum, slot.content).0.core)
    ensures var (r', out) := Process(e.v, me, r, slot.msgnum, slot.content); Brought(e.l, me, r, r', out)
  {
    var (r', out) := Process(e.v, me, r, slot.msgnum, slot.content);
    ProcessAppends(e.v, me, r, slot.msgnum, slot.content);
    AppendedKept(e.v, me, r, slot.msgnum, slot.content, r', out);
    GrownFollows(e, r.core, slot, r'.core);
    AnswersOne(e.l, me, r, r');
  }

  /** Of what was appended only the first can be an operation. */
  lemma AnswersOne(l: seq<Slot>, me: nat, r: Replica, r': Replica)
    requires |r.core.log| < |r'.core.log| <= |l|
    requires forall op: nat :: |r.core.log| + 1 < op <= |r'.core.log| ==> IsNoOp(l, op)
    ensures forall m :: IsAnswer(l, me, |r.core.log|, |r'.core.log|, m) <==> m in Answer(l, me, |r.core.log| + 1)
  {
    var op := |r.core.log| + 1;
    forall m | IsAnswer(l, me, |r.core.log|, |r'.core.log|, m)
      ensures m in Answer(l, me, op)
    {
      var n :| |r.core.log| < n <= |r'.core.log| && n <= |l| && m in Answer(l, me, n);
      assert n > op ==> IsNoOp(l, n);
    }
    forall m | m in Answer(l, me, op)
      ensures IsAnswer(l, me, |r.core.log|, |r'.core.log|, m)
    {
      assert |r.core.log| < op <= |r'.core.log|;
    }
  }

  lemma AnswersTwice(l: seq<Slot>, me: nat, a: nat, b: nat, c: nat, m: Message)
    requires a <= b <= c
    ensures IsAnswer(l, me, a, c, m) <==> IsAnswer(l, me, a, b, m) || IsAnswer(l, me, b, c, m)
  {
  }

  lemma SaysTwice(l: seq<Slot>, me: nat, r: Replica, s: Replica, t: Replica, out: set<Message>, more: set<Message>)
    requires |r.core.log| <= |s.core.log| <= |t.core.log| && TransferKept(r, s) && TransferKept(s, t)
    requires TransferSays(l, me, r, s, out) && TransferSays(l, me, s, t, more)
    ensures TransferSays(l, me, r, t, out + more)
  {
    forall m
      ensures m in out + more <==>
              || IsAnswer(l, me, |r.core.log|, |t.core.log|, m)
              || (Reached(r, t) && r.transfer.end - 1 !in r.commits && m == SyncPrepareReply(r.transfer.end - 1, me))
    {
      AnswersTwice(l, me, |r.core.log|, |s.core.log|, |t.core.log|, m);
    }
  }

  lemma BroughtTwice(l: seq<Slot>, me: nat, r: Replica, s: Replica, t: Replica, out: set<Message>, more: set<Message>)
    requires Brought(l, me, r, s, out) && Brought(l, me, s, t, more)
    ensures Brought(l, me, r, t, out + more)
  {
    SaysTwice(l, me, r, s, t, out, more);
  }

  lemma NothingBrought(l: seq<Slot>, me: nat, r: Replica)
    ensures Brought(l, me, r, r, {})
  {
  }

  lemma {:induction false} InstallBrings(e: Env, rs: seq<Replica>, i: nat, op: nat, entries: seq<Slot>)
    requires Ready(e, rs, i) && |e.v.base| < op && PartOf(e.l, op - 1, entries)
    ensures var res := Install(e.v, i, rs[i], op, entries); Brought(e.l, i, rs[i], res.replica, res.out)
    decreases |entries|
  {
    if entries == [] || op != |rs[i].core.log| + 1 {
      NothingBrought(e.l, i, rs[i]);
    } else {
      var (s, out) := Process(e.v, i, rs[i], entries[0].msgnum, entries[0].content);
      ProcessTransferred(e, rs, i, entries[0]);
      ProcessBrings(e, i, rs[i], entries[0]);
      TailPartOf(e.l, op - 1, entries, 1);
      InstallBrings(e, rs[i := s], i, op + 1, entries[1..]);
      var rest := Install(e.v, i, s, op + 1, entries[1..]);
      BroughtTwice(e.l, i, rs[i], s, rest.replica, out, rest.out);
    }
  }

  /** The log ends at `n` or later; or a known gap beyond the next operation, before `n`, is what it has run into. */
  ghost predicate Reaches(k: Core, n: nat, k': Core) {
    var op := |k.log| + 1;
    if GapBetween(k, op, n + 1) then exists g :: g in k.gaps && op < g <= |k'.log| else |k'.log| >= n
  }

  /** Installing goes on to the end, unless a gap that was known puts it ahead of itself. */
  lemma {:induction false} InstallReaches(v: View, me: nat, r: Replica, entries: seq<Slot>)
    ensures Reaches(r.core, |r.core.log| + |entries|,
                    Install(v, me, r, |r.core.log| + 1, entries).replica.core)
    decreases |entries|
  {
    var op := |r.core.log| + 1;
    if entries != [] {
      var s := Process(v, me, r, entries[0].msgnum, entries[0].content).0;
      var k := Put(r.core, entries[0].msgnum, entries[0].content);
      ProcessCore(v, me, r, entries[0].msgnum, entries[0].content);
      SettleGrows(k);
      assert forall g :: g in k.gaps && g > op ==> g in r.core.gaps;
      if op + 1 in k.gaps {
        assert Install(v, me, s, op + 1, entries[1..]) == Installed(s, {}, |entries| == 1);
      } else {
        assert s.core == k;
        InstallReaches(v, me, s, entries[1..]);
        ReachesOn(r.core, k, |r.core.log| + |entries|, Install(v, me, s, op + 1, entries[1..]).replica.core);
      }
    }
  }

  lemma ReachesOn(k: Core, k1: Core, n: nat, k': Core)
    requires |k1.log| == |k.log| + 1 && |k1.log| + 1 !in k1.gaps && k.gaps <= k1.gaps <= k.gaps + {|k1.log|}
    requires Reaches(k1, n, k')
    ensures Reaches(k, n, k')
  {
    var op := |k.log| + 1;
    if GapBetween(k, op, n + 1) {
      var g :| g in k.gaps && op < g < n + 1;
      assert g in k1.gaps && op + 1 < g;
    }
    if GapBetween(k1, op + 1, n + 1) {
      var g :| g in k1.gaps && op + 1 < g < n + 1;
      assert g in k.gaps;
    }
  }

  lemma TransferReaches(v: View, me: nat, r: Replica, begin: nat, entries: seq<Slot>)
    requires 1 <= begin <= |r.core.log| + 1
    ensures Reaches(r.core, begin - 1 + |entries|, HandleStateTransferReply(v, me, r, begin, entries).replica.core)
  {
    var skip := |r.core.log| + 1 - begin;
    if |entries| > skip {
      InstallReaches(v, me, r, entries[skip..]);
    }
  }

  lemma TransferBrings(e: Env, rs: seq<Replica>, i: nat, begin: nat, entries: seq<Slot>)
    requires Ready(e, rs, i) && MessageOk(e, rs, StateTransferReply(i, begin, entries))
    ensures var res := HandleStateTransferReply(e.v, i, rs[i], begin, entries);
            Brought(e.l, i, rs[i], res.replica, res.out)
  {
    var last := |rs[i].core.log|;
    var skip := last + 1 - begin;
    if |entries| <= skip {
      NothingBrought(e.l, i, rs[i]);
    } else {
      TailPartOf(e.l, begin - 1, entries, skip);
      InstallBrings(e, rs, i, last + 1, entries[skip..]);
    }
  }

  /**
   * A transfer brings the follower the leader's operations and nothing else, to the end of what was sent unless it
   * runs into a gap it knew, and answers the clients for each.
   */
  lemma TransferEffect(v: View, run: seq<System>, steps: seq<Step>, k: nat, i: nat, begin: nat, entries: seq<Slot>)
    requires Run(v, run, steps) && k < |steps| && steps[k] == Deliver(i, StateTransferReply(i, begin, entries))
    requires i != v.leader
    ensures v.leader < |run[k].replicas| && i < |run[k].replicas| == |run[k + 1].replicas| && begin >= 1
    ensures var r, r', l := run[k].replicas[i], run[k + 1].replicas[i], Lead(v, run[k]).core.log;
            && (exists out :: Brought(l, i, r, r', out) && Becomes(run[k], run[k + 1], i, r', out))
            && Reaches(r.core, begin - 1 + |entries|, r'.core)
  {
    DeliverAt(v, run, steps, k, i, steps[k].m);
    MessageAt(v, run, steps, k, steps[k].m);
    CoreAt(v, run, steps, k, i);
    assert NextAt(v, run, steps, k);
    TransferBrings(EnvOf(v, run[k]), run[k].replicas, i, begin, entries);
    TransferReaches(v, i, run[k].replicas[i], begin, entries);
    var res := HandleStateTransferReply(v, i, run[k].replicas[i], begin, entries);
    assert res.replica == run[k + 1].replicas[i] && Becomes(run[k], run[k + 1], i, res.replica, res.out);
    assert Brought(Lead(v, run[k]).core.log, i, run[k].replicas[i], res.replica, res.out);
  }
}

/**
 * What every step of NOPaxos within a view does, over runs: which operation a message appends, when the leader gives
 * one up, when it resumes, and exactly when it and the followers commit.
 */
module NopaxosEffects {
  import opened Numbers
  import opened Quorums
  import opened Logs
  import opened Nopaxos
  import opened NopaxosCore
  import opened NopaxosSafety
  import opened NopaxosSteps
  import opened NopaxosRuns

  // Appending an operation.

  /** The slots from `from` on are no-ops for known gaps, numbered onwards. */
  predicate GapSlots(k: Core, from: nat, log: seq<Slot>) {
    forall j :: from <= j < |log| ==> GapSlot(k, from, log, j)
  }

  predicate GapSlot(k: Core, from: nat, log: seq<Slot>, j: nat)
    requires j < |log|
  {
    from <= j && j + 1 in k.gaps && log[j] == Slot(k.next + j - from, NoOp)
  }

  /** From `k` on, the known gaps that come next have been appended, all of them. */
  predicate Rested(k: Core, k': Core) {
    && k.log <= k'.log && k'.gaps == k.gaps && k'.next == k.next + |k'.log| - |k.log|
    && GapSlots(k, |k.log|, k'.log) && |k'.log| + 1 !in k.gaps
  }

  lemma {:induction false} SettleRests(k: Core)
    ensures Rested(k, Settle(k))
    decreases Above(k)
  {
    if |k.log| + 1 in k.gaps {
      var k1 := Put(k, k.next, NoOp);
      PutConsumes(k);
      SettleRests(k1);
      RestedOne(k, k1, Settle(k));
    }
  }

  lemma RestedOne(k: Core, k1: Core, k': Core)
    requires |k.log| + 1 in k.gaps && k1 == Put(k, k.next, NoOp) && Rested(k1, k')
    ensures Rested(k, k')
  {
    assert k1.gaps == k.gaps && k1.log == k.log + [Slot(k.next, NoOp)];
    forall j | |k.log| <= j < |k'.log|
      ensures GapSlot(k, |k.log|, k'.log, j)
    {
      if j > |k.log| {
        assert GapSlot(k1, |k1.log|, k'.log, j);
      }
    }
  }

  /** The operation is appended, as a no-op if it was given up, and then the known gaps that come next. */
  predicate Grown(k: Core, msgnum: nat, content: Content, k': Core) {
    var op := |k.log| + 1;
    var noop := op in k.gaps || content == NoOp;
    Rested(Core(k.log + [Slot(msgnum, if noop then NoOp else content)], if noop then k.gaps + {op} else k.gaps,
                msgnum + 1), k')
  }

  lemma PlaceGrows(k: Core, msgnum: nat, content: Content)
    ensures Grown(k, msgnum, content, Place(k, msgnum, content))
  {
    SettleRests(Put(k, msgnum, content));
  }

  /** A leader knows no gaps beyond its log: exactly one operation is appended. */
  lemma GrownByOne(k: Core, msgnum: nat, content: Content, k': Core)
    requires Grown(k, msgnum, content, k') && forall g :: g in k.gaps ==> g <= |k.log|
    ensures k'.log == k.log + [Slot(msgnum, content)] && k'.next == msgnum + 1
    ensures k'.gaps == if content == NoOp then k.gaps + {|k.log| + 1} else k.gaps
  {
    var mid := Core(k.log + [Slot(msgnum, content)], k'.gaps, msgnum + 1);
    var more := |mid.log| < |k'.log| && GapSlot(mid, |mid.log|, k'.log, |mid.log|);
  }

  // Sync points.

  /** The replica is complete up to the point: it commits if the leader did, and acknowledges otherwise. */
  predicate Completed(v: View, me: nat, r: Replica, point: nat, r': Replica, out: set<Message>) {
    if point in r.commits then
      && r' == r.(committed := Max(r.committed, point), prepares := r.prepares - {point},
                  commits := r.commits - {point},
                  executed := if r.committed < point then Max(r.executed, point) else r.executed)
      && out == if me == v.leader && r.committed < point then {SyncCommit(point)} else {}
    else r' == r && out == {SyncPrepareReply(point, me)}
  }

  lemma SyncCompletes(v: View, me: nat, r: Replica, point: nat)
    ensures var (r', out) := ProcessSyncPrepare(v, me, r, point); Completed(v, me, r, point, r', out)
  {
  }

  /** The log has grown to `k`; where a transfer's end was reached, the sync point before it is complete. */
  predicate GrownTo(v: View, me: nat, r: Replica, k: Core, r': Replica, out: set<Message>) {
    var s := r.(core := k, gapRequested := false, missing := if r.gapRequested then map[] else r.missing);
    if r.transfer.Transfer? && |r.core.log| < r.transfer.end <= |k.log| then
      Completed(v, me, s.(transfer := r.transfer.(requested := false)), r.transfer.end - 1, r', out)
    else r' == s && out == {}
  }

  lemma AdvanceGrows(v: View, me: nat, r: Replica, k: Core)
    requires |k.log| > |r.core.log|
    ensures var (r', out) := Advance(v, me, r, k); GrownTo(v, me, r, k, r', out)
  {
    SyncCompletes(v, me, Moved(r, k), if Crosses(r, k) then r.transfer.end - 1 else 0);
  }

  /** One operation was processed: appended, answered if it is no no-op, and at the leader executed. */
  ghost predicate Appended(v: View, me: nat, r: Replica, msgnum: nat, content: Content, r': Replica,
                           out: set<Message>) {
    var op := |r.core.log| + 1;
    var noop := op in r.core.gaps || content == NoOp;
    && Grown(r.core, msgnum, content, r'.core)
    && exists s, more :: && GrownTo(v, me, r, r'.core, s, more)
                         && r' == s.(executed := if me == v.leader && !noop then Max(s.executed, op) else s.executed)
                         && out == more + if noop then {} else {Reply(op, me, Id(content.req))}
  }

  lemma ProcessAppends(v: View, me: nat, r: Replica, msgnum: nat, content: Content)
    ensures var (r', out) := Process(v, me, r, msgnum, content); Appended(v, me, r, msgnum, content, r', out)
  {
    var k := Place(r.core, msgnum, content);
    PlaceGrows(r.core, msgnum, content);
    AdvanceGrows(v, me, r, k);
    AdvanceCore(v, me, r, k);
    var (s, more) := Advance(v, me, r, k);
    assert GrownTo(v, me, r, k, s, more) && more + {} == more;
  }

  /** At the leader, which has no transfer and knows no gaps ahead, that is all there is to it. */
  lemma LeaderAppends(v: View, r: Replica, msgnum: nat, content: Content, r': Replica, out: set<Message>)
    requires Appended(v, v.leader, r, msgnum, content, r', out)
    requires r.transfer == Idle && forall g :: g in r.core.gaps ==> g <= |r.core.log|
    ensures var op := |r.core.log| + 1;
            && r'.core.log == r.core.log + [Slot(msgnum, content)]
            && r' == r.(core := r'.core, gapRequested := false, missing := if r.gapRequested then map[] else r.missing,
                        executed := if content == NoOp then r.executed else Max(r.executed, op))
            && out == if content == NoOp then {} else {Reply(op, v.leader, Id(content.req))}
  {
    GrownByOne(r.core, msgnum, content, r'.core);
  }

  // The leader.

  function Lead(v: View, s: System): Replica
    requires v.leader < |s.replicas|
  {
    s.replicas[v.leader]
  }

  predicate Leading(r: Replica) {
    r.transfer == Idle && forall g :: g in r.core.gaps ==> g <= |r.core.log|
  }

  lemma LeadKnown(v: View, s: System)
    requires Inv(v, s)
    ensures Leading(Lead(v, s))
  {
    var e := EnvOf(v, s);
    assert RepOk(e, v.leader, Lead(v, s));
    forall g | g in Lead(v, s).core.gaps
      ensures g <= |Lead(v, s).core.log|
    {
      assert GapOk(v, e.l, g);
    }
  }

  /** The leader gives its next operation up: it logs a no-op, waits for its confirmation, and asks for it. */
  predicate GivesUp(r: Replica, r': Replica, out: set<Message>) {
    var op := |r.core.log| + 1;
    && r'.core == Core(r.core.log + [Slot(r.core.next, NoOp)], r.core.gaps + {op}, r.core.next + 1)
    && r' == r.(core := r'.core, missing := map[], gapRequested := false, gapCommit := true, gapOKs := {})
    && out == {GapCommit(op)}
  }

  lemma AgreementGivesUp(v: View, r: Replica)
    requires Leading(r)
    ensures var (r', out) := StartGapAgreement(v, r); GivesUp(r, r', out)
  {
    var s := r.(missing := map[], gapRequested := false, gapCommit := true, gapOKs := {});
    var (t, more) := Process(v, v.leader, s, s.core.next, NoOp);
    ProcessAppends(v, v.leader, s, s.core.next, NoOp);
    LeaderAppends(v, s, s.core.next, NoOp, t, more);
    GrownByOne(s.core, s.core.next, NoOp, t.core);
    assert {} + {GapCommit(|t.core.log|)} == {GapCommit(|t.core.log|)};
  }

  /** The leader takes an operation it received, executes and answers it, or takes a no-op. */
  predicate Takes(v: View, r: Replica, msgnum: nat, content: Content, r': Replica, out: set<Message>) {
    var op := |r.core.log| + 1;
    && r'.core.log == r.core.log + [Slot(msgnum, content)] && r'.core.next == msgnum + 1
    && r' == r.(core := r'.core, gapRequested := false, missing := if r.gapRequested then map[] else r.missing,
                executed := if content == NoOp then r.executed else Max(r.executed, op))
    && out == if content == NoOp then {} else {Reply(op, v.leader, Id(content.req))}
  }

  lemma ProcessTakes(v: View, r: Replica, msgnum: nat, content: Content)
    requires Leading(r)
    ensures var (r', out) := Process(v, v.leader, r, msgnum, content); Takes(v, r, msgnum, content, r', out)
  {
    var (r', out) := Process(v, v.leader, r, msgnum, content);
    ProcessAppends(v, v.leader, r, msgnum, content);
    LeaderAppends(v, r, msgnum, content, r', out);
    GrownByOne(r.core, msgnum, content, r'.core);
  }

  // What the leader counts.

  function VotesIn(votes: map<nat, set<nat>>, op: nat): set<nat> {
    if op in votes then votes[op] else {}
  }

  /** A report, from another replica, that the operation the leader waits for is missing. */
  predicate MissStep(v: View, s: System, step: Step, op: nat) {
    && v.leader < |s.replicas| && step.Deliver? && step.i == v.leader && step.m.GapMissing? && step.m.op == op
    && step.m.replica != v.leader && |Lead(v, s).core.log| + 1 == op && !Lead(v, s).gapCommit
  }

  /** A confirmation of the no-op that the leader waits for. */
  predicate ConfirmStep(v: View, s: System, step: Step, op: nat) {
    && v.leader < |s.replicas| && step.Deliver? && step.i == v.leader && step.m.GapCommitReply? && step.m.op == op
    && |Lead(v, s).core.log| == op && Lead(v, s).gapCommit
  }

  /** An acknowledgement of the current sync point while it is not committed. */
  predicate SyncStep(v: View, s: System, step: Step, p: nat) {
    && v.leader < |s.replicas| && step.Deliver? && step.i == v.leader && step.m.SyncPrepareReply? && step.m.point == p
    && Lead(v, s).committed < p == Lead(v, s).syncPoint
  }

  function Reported(v: View, run: seq<System>, steps: seq<Step>, k: nat, op: nat): set<nat>
    requires k <= |steps| <= |run|
  {
    set j | 0 <= j < k && MissStep(v, run[j], steps[j], op) :: steps[j].m.replica
  }

  function Confirmed(v: View, run: seq<System>, steps: seq<Step>, k: nat, op: nat): set<nat>
    requires k <= |steps| <= |run|
  {
    set j | 0 <= j < k && ConfirmStep(v, run[j], steps[j], op) :: steps[j].m.replica
  }

  function Synced(v: View, run: seq<System>, steps: seq<Step>, k: nat, p: nat): set<nat>
    requires k <= |steps| <= |run|
  {
    set j | 0 <= j < k && SyncStep(v, run[j], steps[j], p) :: steps[j].m.replica
  }

  lemma CountsNext(v: View, run: seq<System>, steps: seq<Step>, k: nat, op: nat)
    requires k < |steps| <= |run|
    ensures Reported(v, run, steps, k + 1, op) == Reported(v, run, steps, k, op) +
              if MissStep(v, run[k], steps[k], op) then {steps[k].m.replica} else {}
    ensures Confirmed(v, run, steps, k + 1, op) == Confirmed(v, run, steps, k, op) +
              if ConfirmStep(v, run[k], steps[k], op) then {steps[k].m.replica} else {}
    ensures Synced(v, run, steps, k + 1, op) == Synced(v, run, steps, k, op) +
              if SyncStep(v, run[k], steps[k], op) then {steps[k].m.replica} else {}
  {
  }

  // What each step does to what is counted.

  /** While the log stays, reports are collected and confirmations counted; when it grows, both start anew. */
  ghost predicate GapChange(v: View, s: System, step: Step, r: Replica, r': Replica)
    requires v.leader < |s.replicas|
  {
    var op := |r.core.log|;
    if |r'.core.log| > op then
      (r'.missing == r.missing || r'.missing == map[]) && (r'.gapCommit ==> r'.gapOKs == {})
    else
      && |r'.core.log| == op
      && r'.missing == (if MissStep(v, s, step, op + 1) then AddVote(r.missing, op + 1, step.m.replica) else r.missing)
      && if ConfirmStep(v, s, step, op) then
           var oks := r.gapOKs + {step.m.replica};
           var done := |oks| >= QuorumSize(v.c) - 1;
           r'.gapCommit == !done && r'.gapOKs == if done then {} else oks
         else r'.gapCommit == r.gapCommit && r'.gapOKs == r.gapOKs
  }

  ghost predicate SyncChange(v: View, s: System, step: Step, r: Replica, r': Replica)
    requires v.leader < |s.replicas|
  {
    if step.Deliver? && step.m.SyncPrepareReply? && SyncStep(v, s, step, step.m.point) then
      var p := step.m.point;
      && r'.syncOKs == AddVote(r.syncOKs, p, step.m.replica)
      && r'.committed == if |r'.syncOKs[p]| >= QuorumSize(v.c) - 1 then p else r.committed
    else r'.syncOKs == r.syncOKs && r'.committed == r.committed
  }

  ghost predicate Change(v: View, s: System, step: Step, r': Replica)
    requires v.leader < |s.replicas|
  {
    GapChange(v, s, step, Lead(v, s), r') && SyncChange(v, s, step, Lead(v, s), r')
  }

  /** The step is none of those that are counted. */
  predicate Uncounted(step: Step) {
    step.Deliver? ==> !step.m.GapMissing? && !step.m.GapCommitReply? && !step.m.SyncPrepareReply?
  }

  lemma SameChange(v: View, s: System, step: Step, r': Replica)
    requires v.leader < |s.replicas| && Uncounted(step)
    requires var r := Lead(v, s);
             && r'.core.log == r.core.log && r'.missing == r.missing && r'.gapCommit == r.gapCommit
             && r'.gapOKs == r.gapOKs && r'.syncOKs == r.syncOKs && r'.committed == r.committed
    ensures Change(v, s, step, r')
  {
  }

  lemma TakesChange(v: View, s: System, step: Step, msgnum: nat, content: Content, r': Replica, out: set<Message>)
    requires v.leader < |s.replicas| && Uncounted(step) && !Lead(v, s).gapCommit
    requires Takes(v, Lead(v, s), msgnum, content, r', out)
    ensures Change(v, s, step, r')
  {
  }

  lemma GivesUpChange(v: View, s: System, step: Step, r': Replica, out: set<Message>)
    requires v.leader < |s.replicas| && (step.Deliver? ==> !step.m.SyncPrepareReply?) && GivesUp(Lead(v, s), r', out)
    ensures Change(v, s, step, r')
  {
  }

  lemma MissingChange(v: View, s: System, op: nat, i: nat)
    requires v.leader < |s.replicas| && Leading(Lead(v, s))
    ensures var m := GapMissing(op, i); Change(v, s, Deliver(v.leader, m), Receive(v, v.leader, Lead(v, s), m).0)
  {
    var r := Lead(v, s);
    AgreementGivesUp(v, r.(missing := AddVote(r.missing, op, i)));
  }

  lemma FoundChange(v: View, s: System, op: nat, content: Content)
    requires v.leader < |s.replicas| && Leading(Lead(v, s))
    ensures var m := GapFound(op, content); Change(v, s, Deliver(v.leader, m), Receive(v, v.leader, Lead(v, s), m).0)
  {
    var r, m := Lead(v, s), GapFound(op, content);
    if op == |r.core.log| + 1 && !r.gapCommit {
      ProcessTakes(v, r, r.core.next, content);
      var (r', out) := Process(v, v.leader, r, r.core.next, content);
      TakesChange(v, s, Deliver(v.leader, m), r.core.next, content, r', out);
    } else {
      SameChange(v, s, Deliver(v.leader, m), r);
    }
  }

  lemma ConfirmChange(v: View, s: System, op: nat, i: nat)
    requires v.leader < |s.replicas|
    ensures Change(v, s, Deliver(v.leader, GapCommitReply(op, i)), HandleGapCommitReply(v, Lead(v, s), op, i))
  {
  }

  /** An acknowledgement was counted, and committed the sync point or not. */
  predicate AckedBy(r: Replica, p: nat, i: nat, commits: bool, r': Replica, out: set<Message>) {
    && r' == r.(syncOKs := AddVote(r.syncOKs, p, i), committed := if commits then p else r.committed,
                executed := if commits then Max(r.executed, p) else r.executed)
    && out == if commits then {SyncCommit(p)} else {}
  }

  lemma AckCounted(v: View, r: Replica, p: nat, i: nat)
    requires r.committed < p == r.syncPoint
    ensures var (r', out) := HandleSyncPrepareReply(v, r, p, i);
            AckedBy(r, p, i, |VotesIn(r.syncOKs, p) + {i}| >= QuorumSize(v.c) - 1, r', out)
  {
    assert AddVote(r.syncOKs, p, i)[p] == VotesIn(r.syncOKs, p) + {i};
  }

  lemma AckChange(v: View, s: System, p: nat, i: nat)
    requires v.leader < |s.replicas|
    ensures Change(v, s, Deliver(v.leader, SyncPrepareReply(p, i)), HandleSyncPrepareReply(v, Lead(v, s), p, i).0)
  {
    var r := Lead(v, s);
    if r.committed < p == r.syncPoint {
      AckCounted(v, r, p, i);
      AckedChange(v, s, p, i, HandleSyncPrepareReply(v, r, p, i));
    }
  }

  lemma AckedChange(v: View, s: System, p: nat, i: nat, res: (Replica, set<Message>))
    requires v.leader < |s.replicas| && Lead(v, s).committed < p == Lead(v, s).syncPoint
    requires AckedBy(Lead(v, s), p, i, |VotesIn(Lead(v, s).syncOKs, p) + {i}| >= QuorumSize(v.c) - 1, res.0, res.1)
    ensures Change(v, s, Deliver(v.leader, SyncPrepareReply(p, i)), res.0)
  {
  }

  lemma DeliverChange(v: View, s: System, m: Message)
    requires v.leader < |s.replicas| && Leading(Lead(v, s)) && Readable(v.leader, Lead(v, s), m)
    ensures Change(v, s, Deliver(v.leader, m), Receive(v, v.leader, Lead(v, s), m).0)
  {
    match m
    case GapMissing(op, i) => MissingChange(v, s, op, i);
    case GapFound(op, content) => FoundChange(v, s, op, content);
    case GapCommitReply(op, i) => ConfirmChange(v, s, op, i);
    case SyncPrepareReply(p, i) => AckChange(v, s, p, i);
    case _ => SameChange(v, s, Deliver(v.leader, m), Lead(v, s));
  }

  lemma ArriveChange(v: View, s: System, step: Step, msgnum: nat, req: Request)
    requires v.leader < |s.replicas| && Leading(Lead(v, s)) && Uncounted(step)
    ensures Change(v, s, step, HandleRequest(v, v.leader, Lead(v, s), msgnum, req).0)
  {
    var r := Lead(v, s);
    var (r', out) := HandleRequest(v, v.leader, r, msgnum, req);
    if !r.gapCommit && msgnum >= r.core.next && (msgnum == r.core.next || r.core.next == 1) {
      ProcessTakes(v, r, msgnum, Op(req));
      TakesChange(v, s, step, msgnum, Op(req), r', out);
    } else {
      SameChange(v, s, step, r');
    }
  }

  lemma TimerChange(v: View, s: System, step: Step)
    requires v.leader < |s.replicas| && Leading(Lead(v, s)) && Uncounted(step)
    ensures Change(v, s, step, GapTimeout(v, v.leader, Lead(v, s)).0)
  {
    var r := Lead(v, s);
    var (r', out) := GapTimeout(v, v.leader, r);
    if r.gapRequested {
      AgreementGivesUp(v, r);
      GivesUpChange(v, s, step, r', out);
    } else {
      SameChange(v, s, step, r);
    }
  }

  lemma StepChange(v: View, s: System, s': System, step: Step)
    requires Inv(v, s) && Next(v, s, s', step)
    ensures v.leader < |s'.replicas| && Change(v, s, step, Lead(v, s'))
  {
    LeadKnown(v, s);
    match step
    case Arrive(i, n) =>
      if i == v.leader {
        ArriveChange(v, s, step, n, s.stamped[n - 1]);
      } else {
        SameChange(v, s, step, Lead(v, s'));
      }
    case Deliver(i, m) =>
      if i == v.leader {
        DeliverChange(v, s, m);
      } else {
        OtherChange(v, s, step);
      }
    case GapTimer(i) =>
      if i == v.leader {
        TimerChange(v, s, step);
      } else {
        SameChange(v, s, step, Lead(v, s'));
      }
    case _ => SameChange(v, s, step, Lead(v, s'));
  }

  lemma OtherChange(v: View, s: System, step: Step)
    requires v.leader < |s.replicas| && step.Deliver? && step.i != v.leader
    ensures Change(v, s, step, Lead(v, s))
  {
  }

  // The counts, told by the steps.

  ghost predicate MissTells(v: View, run: seq<System>, steps: seq<Step>, k: nat, r: Replica, op: nat)
    requires k <= |steps| <= |run|
  {
    && (op > |r.core.log| ==> VotesIn(r.missing, op) == Reported(v, run, steps, k, op))
    && (op > |r.core.log| + 1 ==> VotesIn(r.missing, op) == {})
  }

  ghost predicate ConfirmTells(v: View, run: seq<System>, steps: seq<Step>, k: nat, r: Replica, op: nat)
    requires k <= |steps| <= |run|
  {
    && (op > |r.core.log| ==> Confirmed(v, run, steps, k, op) == {})
    && (op == |r.core.log| && r.gapCommit ==> r.gapOKs == Confirmed(v, run, steps, k, op))
  }

  ghost predicate SyncTells(v: View, run: seq<System>, steps: seq<Step>, k: nat, r: Replica, p: nat)
    requires k <= |steps| <= |run|
  {
    VotesIn(r.syncOKs, p) == Synced(v, run, steps, k, p)
  }

  /** A quorum, with the leader, has acknowledged the sync point. */
  ghost predicate Enough(v: View, run: seq<System>, steps: seq<Step>, k: nat, p: nat)
    requires k <= |steps| <= |run|
  {
    var synced := Synced(v, run, steps, k, p);
    synced != {} && |synced| >= QuorumSize(v.c) - 1
  }

  /** The operation was committed at first, or lies before a sync point that enough have acknowledged. */
  ghost predicate MayCommit(v: View, c0: nat, run: seq<System>, steps: seq<Step>, k: nat, op: nat)
    requires k <= |steps| <= |run|
  {
    op <= c0 || exists p: nat :: op <= p && Enough(v, run, steps, k, p)
  }

  ghost predicate CommitTells(v: View, c0: nat, run: seq<System>, steps: seq<Step>, k: nat, committed: nat)
    requires k <= |steps| <= |run|
  {
    forall op: nat :: op <= committed <==> MayCommit(v, c0, run, steps, k, op)
  }

  ghost predicate Told(v: View, c0: nat, run: seq<System>, steps: seq<Step>, k: nat, r: Replica)
    requires k <= |steps| <= |run|
  {
    && (forall op: nat :: MissTells(v, run, steps, k, r, op))
    && (forall op: nat :: ConfirmTells(v, run, steps, k, r, op))
    && (forall p: nat :: SyncTells(v, run, steps, k, r, p))
    && CommitTells(v, c0, run, steps, k, r.committed)
  }

  lemma MissNext(v: View, run: seq<System>, steps: seq<Step>, k: nat, r': Replica, op: nat)
    requires k < |steps| <= |run| && v.leader < |run[k].replicas|
    requires MissTells(v, run, steps, k, Lead(v, run[k]), op) && GapChange(v, run[k], steps[k], Lead(v, run[k]), r')
    ensures MissTells(v, run, steps, k + 1, r', op)
  {
    CountsNext(v, run, steps, k, op);
  }

  lemma ConfirmNext(v: View, run: seq<System>, steps: seq<Step>, k: nat, r': Replica, op: nat)
    requires k < |steps| <= |run| && v.leader < |run[k].replicas|
    requires ConfirmTells(v, run, steps, k, Lead(v, run[k]), op) && GapChange(v, run[k], steps[k], Lead(v, run[k]), r')
    ensures ConfirmTells(v, run, steps, k + 1, r', op)
  {
    CountsNext(v, run, steps, k, op);
  }

  lemma SyncNext(v: View, run: seq<System>, steps: seq<Step>, k: nat, r': Replica, p: nat)
    requires k < |steps| <= |run| && v.leader < |run[k].replicas|
    requires SyncTells(v, run, steps, k, Lead(v, run[k]), p) && SyncChange(v, run[k], steps[k], Lead(v, run[k]), r')
    ensures SyncTells(v, run, steps, k + 1, r', p)
  {
    CountsNext(v, run, steps, k, p);
  }

  lemma EnoughNext(v: View, run: seq<System>, steps: seq<Step>, k: nat, p: nat)
    requires k < |steps| <= |run|
    ensures Enough(v, run, steps, k, p) ==> Enough(v, run, steps, k + 1, p)
    ensures !SyncStep(v, run[k], steps[k], p) ==> (Enough(v, run, steps, k + 1, p) <==> Enough(v, run, steps, k, p))
  {
    CountsNext(v, run, steps, k, p);
    SubsetCount(Synced(v, run, steps, k, p), Synced(v, run, steps, k + 1, p));
  }

  lemma MayNext(v: View, c0: nat, run: seq<System>, steps: seq<Step>, k: nat, op: nat)
    requires k < |steps| <= |run|
    ensures var step := steps[k];
            var now := CommitsNow(v, run, steps, k) && op <= step.m.point;
            MayCommit(v, c0, run, steps, k + 1, op) <==> MayCommit(v, c0, run, steps, k, op) || now
  {
    if op > c0 && MayCommit(v, c0, run, steps, k, op) {
      var p: nat :| op <= p && Enough(v, run, steps, k, p);
      EnoughNext(v, run, steps, k, p);
    }
    if op > c0 && MayCommit(v, c0, run, steps, k + 1, op) {
      var p: nat :| op <= p && Enough(v, run, steps, k + 1, p);
      EnoughNext(v, run, steps, k, p);
    }
  }

  /** The step is the acknowledgement that makes them enough, or one after it. */
  ghost predicate CommitsNow(v: View, run: seq<System>, steps: seq<Step>, k: nat)
    requires k < |steps| <= |run|
  {
    var step := steps[k];
    && step.Deliver? && step.m.SyncPrepareReply? && SyncStep(v, run[k], step, step.m.point)
    && Enough(v, run, steps, k + 1, step.m.point)
  }

  lemma CommitNext(v: View, c0: nat, run: seq<System>, steps: seq<Step>, k: nat, committed: nat, committed': nat)
    requires k < |steps| <= |run| && CommitTells(v, c0, run, steps, k, committed)
    requires committed' == if CommitsNow(v, run, steps, k) then Max(committed, steps[k].m.point) else committed
    ensures CommitTells(v, c0, run, steps, k + 1, committed')
  {
    var n := k + 1;
    forall op: nat
      ensures op <= committed' <==> MayCommit(v, c0, run, steps, n, op)
    {
      MayNext(v, c0, run, steps, k, op);
      assert op <= committed <==> MayCommit(v, c0, run, steps, k, op);
    }
  }

  lemma CommitsAs(v: View, run: seq<System>, steps: seq<Step>, k: nat, r': Replica)
    requires k < |steps| <= |run| && v.leader < |run[k].replicas|
    requires SyncChange(v, run[k], steps[k], Lead(v, run[k]), r')
    requires var step := steps[k]; step.Deliver? && step.m.SyncPrepareReply? ==>
               SyncTells(v, run, steps, k + 1, r', step.m.point)
    ensures var c := Lead(v, run[k]).committed;
            r'.committed == if CommitsNow(v, run, steps, k) then Max(c, steps[k].m.point) else c
  {
    var step := steps[k];
    if step.Deliver? && step.m.SyncPrepareReply? && SyncStep(v, run[k], step, step.m.point) {
      var p, synced := step.m.point, Synced(v, run, steps, k + 1, step.m.point);
      assert r'.syncOKs[p] == synced && step.m.replica in synced;
      assert CommitsNow(v, run, steps, k) <==> |synced| >= QuorumSize(v.c) - 1;
    }
  }

  lemma ToldNext(v: View, c0: nat, run: seq<System>, steps: seq<Step>, k: nat, r': Replica)
    requires k < |steps| <= |run| && v.leader < |run[k].replicas| && Told(v, c0, run, steps, k, Lead(v, run[k]))
    requires Change(v, run[k], steps[k], r')
    ensures Told(v, c0, run, steps, k + 1, r')
  {
    var r, n := Lead(v, run[k]), k + 1;
    forall op: nat
      ensures MissTells(v, run, steps, n, r', op) && ConfirmTells(v, run, steps, n, r', op)
      ensures SyncTells(v, run, steps, n, r', op)
    {
      assert MissTells(v, run, steps, k, r, op) && ConfirmTells(v, run, steps, k, r, op);
      assert SyncTells(v, run, steps, k, r, op);
      MissNext(v, run, steps, k, r', op);
      ConfirmNext(v, run, steps, k, r', op);
      SyncNext(v, run, steps, k, r', op);
    }
    CommitsAs(v, run, steps, k, r');
    CommitNext(v, c0, run, steps, k, r.committed, r'.committed);
  }

  lemma {:induction false} RunTold(v: View, run: seq<System>, steps: seq<Step>, k: nat)
    requires Run(v, run, steps) && k < |run|
    ensures v.leader < |run[0].replicas| && v.leader < |run[k].replicas|
    ensures Told(v, Lead(v, run[0]).committed, run, steps, k, Lead(v, run[k]))
    decreases k
  {
    Reachable(v, run, steps, 0);
    if k == 0 {
      StartTold(v, run, steps);
    } else {
      RunTold(v, run, steps, k - 1);
      Reachable(v, run, steps, k - 1);
      assert NextAt(v, run, steps, k - 1);
      StepChange(v, run[k - 1], run[k], steps[k - 1]);
      ToldNext(v, Lead(v, run[0]).committed, run, steps, k - 1, Lead(v, run[k]));
    }
  }

  lemma StartTold(v: View, run: seq<System>, steps: seq<Step>)
    requires Run(v, run, steps) && v.leader < |run[0].replicas|
    ensures Told(v, Lead(v, run[0]).committed, run, steps, 0, Lead(v, run[0]))
  {
    forall op: nat
      ensures Reported(v, run, steps, 0, op) == {} && Confirmed(v, run, steps, 0, op) == {}
      ensures Synced(v, run, steps, 0, op) == {}
    {
    }
    assert Entering(v, v.leader, Lead(v, run[0]));
  }

  /**
   * The leader has committed exactly up to where it began, or up to a sync point that enough followers acknowledged
   * while it was the current one.
   */
  lemma LeaderCommitsExactly(v: View, run: seq<System>, steps: seq<Step>, k: nat, op: nat)
    requires Run(v, run, steps) && k < |run|
    ensures v.leader < |run[0].replicas| && v.leader < |run[k].replicas|
    ensures op <= Lead(v, run[k]).committed <==> MayCommit(v, Lead(v, run[0]).committed, run, steps, k, op)
  {
    RunTold(v, run, steps, k);
  }

  // What is known at a step of a run.

  lemma LeadAt(v: View, run: seq<System>, steps: seq<Step>, k: nat)
    requires Run(v, run, steps) && k < |run|
    ensures v.leader < v.c.n == |run[k].replicas| && Leading(Lead(v, run[k]))
  {
    Reachable(v, run, steps, k);
    LeadKnown(v, run[k]);
  }

  lemma CountsAt(v: View, run: seq<System>, steps: seq<Step>, k: nat, op: nat)
    requires Run(v, run, steps) && k < |run|
    ensures v.leader < |run[k].replicas|
    ensures MissTells(v, run, steps, k, Lead(v, run[k]), op) && ConfirmTells(v, run, steps, k, Lead(v, run[k]), op)
    ensures SyncTells(v, run, steps, k, Lead(v, run[k]), op)
  {
    RunTold(v, run, steps, k);
  }

  lemma DeliverAt(v: View, run: seq<System>, steps: seq<Step>, k: nat, i: nat, m: Message)
    requires Run(v, run, steps) && k < |steps| && steps[k] == Deliver(i, m)
    ensures i < |run[k].replicas| == |run[k + 1].replicas| && Readable(i, run[k].replicas[i], m) && m in run[k].sent
    ensures var (r', out) := Receive(v, i, run[k].replicas[i], m);
            run[k + 1] == run[k].(replicas := run[k].replicas[i := r'], sent := run[k].sent + out)
  {
    assert NextAt(v, run, steps, k);
  }

  // Gap agreement, step by step.

  lemma {:induction false} SentStays(v: View, run: seq<System>, steps: seq<Step>, j: nat, k: nat)
    requires Run(v, run, steps) && j <= k < |run|
    ensures run[j].sent <= run[k].sent
    decreases k
  {
    if j < k {
      SentStays(v, run, steps, j, k - 1);
      assert NextAt(v, run, steps, k - 1);
    }
  }

  lemma MissWasSent(v: View, run: seq<System>, steps: seq<Step>, j: nat, op: nat)
    requires Run(v, run, steps) && j < |steps| && MissStep(v, run[j], steps[j], op)
    ensures steps[j].m == GapMissing(op, steps[j].m.replica) && steps[j].m in run[j].sent
    ensures steps[j].m.replica < v.c.n && steps[j].m.replica != v.leader
  {
    assert NextAt(v, run, steps, j);
    Reachable(v, run, steps, j);
    assert MessageOk(EnvOf(v, run[j]), run[j].replicas, steps[j].m);
  }

  lemma ReportsWereSent(v: View, run: seq<System>, steps: seq<Step>, k: nat, op: nat, i: nat)
    requires Run(v, run, steps) && k < |run| && i in Reported(v, run, steps, k, op)
    ensures i < v.c.n && i != v.leader && GapMissing(op, i) in run[k].sent
  {
    var j :| 0 <= j < k && MissStep(v, run[j], steps[j], op) && steps[j].m.replica == i;
    MissWasSent(v, run, steps, j, op);
    SentStays(v, run, steps, j, k);
  }

  lemma AllReported(v: View, reported: set<nat>)
    requires v.leader < v.c.n && reported <= Replicas(v.c.n) - {v.leader}
    ensures |reported| >= v.c.n - 1 <==> reported == Replicas(v.c.n) - {v.leader}
  {
    var others := Replicas(v.c.n) - {v.leader};
    assert |others| == v.c.n - 1 by {
      assert Replicas(v.c.n) == others + {v.leader};
    }
    SubsetCount(reported, others);
    if |reported| >= v.c.n - 1 && reported != others {
      var x :| x in others && x !in reported;
      SubsetCount(reported + {x}, others);
    }
  }

  /** Every other replica has reported the operation missing. */
  ghost predicate AllMiss(v: View, run: seq<System>, steps: seq<Step>, k: nat, op: nat)
    requires k <= |steps| <= |run|
  {
    Reported(v, run, steps, k, op) == Replicas(v.c.n) - {v.leader}
  }

  lemma AllMissCounted(v: View, run: seq<System>, steps: seq<Step>, k: nat, op: nat)
    requires Run(v, run, steps) && k < |run| && v.leader < v.c.n
    ensures AllMiss(v, run, steps, k, op) <==> |Reported(v, run, steps, k, op)| >= v.c.n - 1
  {
    var reported := Reported(v, run, steps, k, op);
    forall i | i in reported
      ensures i in Replicas(v.c.n) - {v.leader}
    {
      ReportsWereSent(v, run, steps, k, op, i);
    }
    AllReported(v, reported);
  }

  /** A counted report gives the operation up once the reports are enough, and is kept otherwise. */
  lemma MissingCounted(v: View, r: Replica, op: nat, i: nat, reported: set<nat>)
    requires Leading(r) && op == |r.core.log| + 1 && !r.gapCommit && reported == VotesIn(r.missing, op) + {i}
    ensures var (r', out) := HandleGapMissing(v, v.leader, r, op, i);
            if |reported| >= v.c.n - 1 then GivesUp(r, r', out)
            else r' == r.(missing := r'.missing) && out == {}
  {
    var s := r.(missing := AddVote(r.missing, op, i));
    assert s.missing[op] == reported;
    AgreementGivesUp(v, s);
  }

  /**
   * A report that the next operation is missing makes the leader give it up exactly when with it all other replicas
   * have reported so; otherwise its log and its mode stay.
   */
  lemma GapMissingEffect(v: View, run: seq<System>, steps: seq<Step>, k: nat, op: nat, i: nat)
    requires Run(v, run, steps) && k < |steps| && steps[k] == Deliver(v.leader, GapMissing(op, i))
    ensures v.leader < |run[k].replicas| == |run[k + 1].replicas|
    ensures var r, r' := Lead(v, run[k]), Lead(v, run[k + 1]);
            && run[k + 1].replicas == run[k].replicas[v.leader := r']
            && if MissStep(v, run[k], steps[k], op) && AllMiss(v, run, steps, k + 1, op) then
                 GivesUp(r, r', {GapCommit(op)}) && run[k + 1].sent == run[k].sent + {GapCommit(op)}
               else r' == r.(missing := r'.missing) && run[k + 1].sent == run[k].sent
  {
    DeliverAt(v, run, steps, k, v.leader, steps[k].m);
    var r := Lead(v, run[k]);
    if MissStep(v, run[k], steps[k], op) {
      LeadAt(v, run, steps, k);
      CountsAt(v, run, steps, k, op);
      AllMissCounted(v, run, steps, k + 1, op);
      CountsNext(v, run, steps, k, op);
      MissingCounted(v, r, op, i, Reported(v, run, steps, k + 1, op));
    }
  }

  /** And then each of them has sent its report. */
  lemma GivenUpByAll(v: View, run: seq<System>, steps: seq<Step>, k: nat, op: nat, i: nat)
    requires Run(v, run, steps) && k < |run| && AllMiss(v, run, steps, k, op) && i < v.c.n && i != v.leader
    ensures GapMissing(op, i) in run[k].sent
  {
    ReportsWereSent(v, run, steps, k, op, i);
  }

  /** The leader goes on exactly when enough followers have confirmed its no-op. */
  lemma GapConfirmEffect(v: View, run: seq<System>, steps: seq<Step>, k: nat, op: nat, i: nat)
    requires Run(v, run, steps) && k < |steps| && steps[k] == Deliver(v.leader, GapCommitReply(op, i))
    ensures v.leader < |run[k].replicas| == |run[k + 1].replicas|
    ensures var r, r' := Lead(v, run[k]), Lead(v, run[k + 1]);
            var done := ConfirmStep(v, run[k], steps[k], op) &&
                        |Confirmed(v, run, steps, k + 1, op)| >= QuorumSize(v.c) - 1;
            && r' == r.(gapCommit := r.gapCommit && !done, gapOKs := r'.gapOKs) && run[k + 1].sent == run[k].sent
            && run[k + 1].replicas == run[k].replicas[v.leader := r']
  {
    DeliverAt(v, run, steps, k, v.leader, steps[k].m);
    CountsAt(v, run, steps, k, op);
    CountsNext(v, run, steps, k, op);
  }

  lemma SyncedNow(v: View, run: seq<System>, steps: seq<Step>, k: nat, p: nat)
    requires Run(v, run, steps) && k < |steps| && SyncStep(v, run[k], steps[k], p)
    ensures Synced(v, run, steps, k + 1, p) == VotesIn(Lead(v, run[k]).syncOKs, p) + {steps[k].m.replica}
  {
    CountsAt(v, run, steps, k, p);
    CountsNext(v, run, steps, k, p);
  }

  /** An acknowledgement commits the sync point, and is announced, exactly when enough have come while it is open. */
  lemma SyncAckEffect(v: View, run: seq<System>, steps: seq<Step>, k: nat, p: nat, i: nat)
    requires Run(v, run, steps) && k < |steps| && steps[k] == Deliver(v.leader, SyncPrepareReply(p, i))
    ensures v.leader < |run[k].replicas| == |run[k + 1].replicas|
    ensures var r, r' := Lead(v, run[k]), Lead(v, run[k + 1]);
            && run[k + 1].replicas == run[k].replicas[v.leader := r']
            && if SyncStep(v, run[k], steps[k], p) then
                 var commits := |Synced(v, run, steps, k + 1, p)| >= QuorumSize(v.c) - 1;
                 var out := if commits then {SyncCommit(p)} else {};
                 AckedBy(r, p, i, commits, r', out) && run[k + 1].sent == run[k].sent + out
               else r' == r && run[k + 1].sent == run[k].sent
  {
    DeliverAt(v, run, steps, k, v.leader, steps[k].m);
    if SyncStep(v, run[k], steps[k], p) {
      SyncedNow(v, run, steps, k, p);
      AckCounted(v, Lead(v, run[k]), p, i);
    }
  }
}

/**
 * From reports to the installed log: under the guard the new leader applies before merging, the merged log
 * continues the leader's own log. When the reports have each client's requests in order it can be installed, and
 * then the new log holds whatever a fast quorum held.
 */
module SpecReconciliation {
  import opened Numbers
  import opened Quorums
  import opened Logs
  import opened SpecMerge
  import opened SpecMergeCommits
  import opened SpecMergeShape
  import opened SpecMergeSafety
  import opened SpecClientOrder
  import ClientTables
  import SpecReplica

  /**
   * The guard: the leader has an entry at maxStart, every report starts by then, and every report that
   * has entries holds the leader's hash there.
   */
  predicate GuardPasses(es: seq<Entry>, ms: seq<DoViewChange>, maxStart: nat) {
    && 1 <= maxStart <= |es|
    && forall m :: m in ms && m.entries != [] ==>
         Reported(m) && Has(m, maxStart) && At(m, maxStart).hash == es[maxStart - 1].hash
  }

  /** The first merged entry sits at maxStart and carries the leader's hash. */
  lemma MergedFirst(c: Config, es: seq<Entry>, ms: seq<DoViewChange>, maxStart: nat, run: seq<Entry>)
    requires ms != [] && Mergeable(ms, maxStart) && GuardPasses(es, ms, maxStart)
    requires AgreedRun(c, ms, Stage2Start(ms, maxStart), run)
    requires Base(ms, maxStart, run) != []
    ensures var e := Base(ms, maxStart, run)[0];
            e.opnum == maxStart && e.hash == es[maxStart - 1].hash && OwnHash(e)
  {
    var m := BaseEntry(c, ms, maxStart, run, 0);
    var s := Stage1(ms, maxStart);
    if s != [] {
      Stage1Entry(ms, maxStart, 0);
    } else {
      var next := Stage2Start(ms, maxStart);
      var v := RunEntry(c, ms, next, run, next, run[0]);
    }
  }

  /** A merged log that takes anything at maxStart continues the leader's own log. */
  lemma MergedGrafts(c: Config, es: seq<Entry>, newView: nat, maxStart: nat, ms: seq<DoViewChange>, out: seq<Entry>)
    requires Numbered(es, 1) && Chained(EmptyHash, es)
    requires ms != [] && Mergeable(ms, maxStart) && NoDuplicates(ms) && GuardPasses(es, ms, maxStart)
    requires Decisive(c, ms) && CommittedSupported(c, ms, maxStart)
    requires IsMerge(c, newView, maxStart, ms, out) && out != []
    requires Stage1(ms, maxStart) != [] || !Unsupported(c, ms, maxStart)
    ensures out[0].opnum == maxStart
    ensures SpecReplica.Grafts(es, out)
  {
    MergeShape(c, newView, maxStart, ms, out);
    MergeStart(c, newView, maxStart, ms, out);
    var run :| MergedWith(c, newView, maxStart, ms, run, out);
    var b := Base(ms, maxStart, run);
    ConsiderAllPrefix(Acc(b, Ids(b)), newView, maxStart, ms);
    if b == [] {
      ConsiderAllFirst(Acc(b, Ids(b)), newView, maxStart, ms);
      assert maxStart == 1;
      SupportedTaken(c, ms, maxStart, run);
    }
    MergedFirst(c, es, ms, maxStart, run);
    assert ChainedAt(EmptyHash, es, maxStart - 1);
  }

  lemma SupportedTaken(c: Config, ms: seq<DoViewChange>, maxStart: nat, run: seq<Entry>)
    requires ms != [] && Mergeable(ms, maxStart) && maxStart >= 1
    requires AgreedRun(c, ms, Stage2Start(ms, maxStart), run)
    requires Stage1(ms, maxStart) != [] || !Unsupported(c, ms, maxStart)
    ensures Base(ms, maxStart, run) != []
  {
    if Stage1(ms, maxStart) == [] {
      var h :| Supported(c, ms, maxStart, h);
      if maxStart > MaxSpeculative(ms) {
        NoVotesBeyond(ms, maxStart, h);
      }
    }
  }

  // The view change.

  ghost predicate HeldReported(c: Config, logs: seq<seq<Entry>>, dvcs: seq<DoViewChange>, op: nat, h: Hash)
    requires |logs| == c.n
  {
    FastHeld(c, logs, op, h) ==> HoldersReport(c, logs, dvcs, op, h)
  }

  /** The reporters among the holders of what a fast quorum holds are in the latest view. */
  ghost predicate HoldersLatest(c: Config, logs: seq<seq<Entry>>, dvcs: seq<DoViewChange>)
    requires |logs| == c.n
  {
    forall op: nat, h :: HeldReported(c, logs, dvcs, op, h)
  }

  /**
   * At least f+1 replicas report, few enough to be decisive; what they and the new leader have committed is
   * held by a fast quorum; every replica's log has its clients in order; and the guard passes and takes something.
   */
  ghost predicate ViewChange(c: Config, logs: seq<seq<Entry>>, leader: nat, committed: nat, maxStart: nat,
                             dvcs: seq<DoViewChange>)
  {
    && ValidConfig(c) && ReplicaLogs(c, logs) && leader < c.n
    && |dvcs| >= QuorumSize(c) && dvcs != [] && Mergeable(dvcs, maxStart) && Decisive(c, Latest(dvcs))
    && Reports(c, logs, dvcs) && CommittedHeld(c, logs, dvcs) && HoldersLatest(c, logs, dvcs)
    && committed <= |logs[leader]|
    && (committed > 0 ==> FastHeld(c, logs, committed, logs[leader][committed - 1].hash))
    && GuardPasses(logs[leader], dvcs, maxStart)
    && (forall r :: 0 <= r < |logs| ==> ClientTables.Increasing(logs[r]))
    && (Stage1(Latest(dvcs), maxStart) != [] || !Unsupported(c, Latest(dvcs), maxStart))
  }

  /** The same of the latest reports alone. */
  lemma LatestViewChange(c: Config, logs: seq<seq<Entry>>, leader: nat, committed: nat, maxStart: nat,
                         dvcs: seq<DoViewChange>)
    requires ViewChange(c, logs, leader, committed, maxStart, dvcs)
    ensures var ms := Latest(dvcs);
            && ms != [] && Mergeable(ms, maxStart) && Reports(c, logs, ms) && CommittedHeld(c, logs, ms)
            && GuardPasses(logs[leader], ms, maxStart)
  {
    LatestReports(c, logs, dvcs);
  }

  lemma GuardCovers(es: seq<Entry>, ms: seq<DoViewChange>, maxStart: nat, op: nat)
    requires GuardPasses(es, ms, maxStart) && maxStart <= op
    ensures Covers(ms, op)
  {
  }

  lemma HeldCommitSupported(c: Config, logs: seq<seq<Entry>>, dvcs: seq<DoViewChange>, ms: seq<DoViewChange>,
                            m: DoViewChange, op: nat, h: Hash)
    requires ValidConfig(c) && ReplicaLogs(c, logs) && ms == Latest(dvcs) && Reports(c, logs, ms) && m in ms
    requires Votes(m, op, h) && Covers(ms, op) && FastHeld(c, logs, op, h) && HoldersReport(c, logs, dvcs, op, h)
    ensures Supported(c, ms, op, h)
  {
    EnoughHoldersReport(c, logs, dvcs, op, h);
    CommitPointSupported(c, logs, ms, m, op, h);
  }

  lemma CommitHeld(c: Config, logs: seq<seq<Entry>>, ms: seq<DoViewChange>, m: DoViewChange, h: Hash)
    requires |logs| == c.n && Reports(c, logs, ms) && CommittedHeld(c, logs, ms) && m in ms
    requires m.lastcommitted > 0 && Votes(m, m.lastcommitted, h)
    ensures FastHeld(c, logs, m.lastcommitted, h)
  {
  }

  /** The newest committed entry that is taken is on a fast quorum, so the reports support it. */
  lemma CommitsSupported(c: Config, logs: seq<seq<Entry>>, maxStart: nat, dvcs: seq<DoViewChange>,
                         ms: seq<DoViewChange>)
    requires ValidConfig(c) && ReplicaLogs(c, logs) && HoldersLatest(c, logs, dvcs)
    requires ms == Latest(dvcs) && ms != [] && Mergeable(ms, maxStart)
    requires Reports(c, logs, ms) && CommittedHeld(c, logs, ms)
    requires Stage1(ms, maxStart) != [] ==> Covers(ms, MostCommitted(ms).lastcommitted)
    ensures CommittedSupported(c, ms, maxStart)
  {
    var s := Stage1(ms, maxStart);
    if s != [] {
      var e := s[|s| - 1];
      LastTaken(ms, maxStart, e);
      CommitHeld(c, logs, ms, MostCommitted(ms), e.hash);
      assert HeldReported(c, logs, dvcs, e.opnum, e.hash);
      HeldCommitSupported(c, logs, dvcs, ms, MostCommitted(ms), e.opnum, e.hash);
    }
  }

  lemma LastTaken(ms: seq<DoViewChange>, maxStart: nat, e: Entry)
    requires ms != [] && Mergeable(ms, maxStart)
    requires Stage1(ms, maxStart) != [] && e == Stage1(ms, maxStart)[|Stage1(ms, maxStart)| - 1]
    ensures MostCommitted(ms) in ms && maxStart <= e.opnum == MostCommitted(ms).lastcommitted && e.opnum > 0
    ensures Votes(MostCommitted(ms), e.opnum, e.hash)
  {
    Stage1Entry(ms, maxStart, |Stage1(ms, maxStart)| - 1);
    Stage1Last(ms, maxStart, e);
  }

  lemma ReportOrdered(m: DoViewChange, log: seq<Entry>)
    requires ReportOf(m, log) && CompleteLog(log) && ClientTables.Increasing(log)
    ensures ReportInOrder(m)
  {
    forall e | e in m.entries
      ensures InOrder(e.hash)
    {
      assert Has(m, e.opnum) && At(m, e.opnum) == e;
      IncreasingInOrder(log, e.opnum - 1);
    }
  }

  lemma OwnCommitTaken(c: Config, logs: seq<seq<Entry>>, es: seq<Entry>, maxStart: nat, ms: seq<DoViewChange>,
                       m: DoViewChange)
    requires ValidConfig(c) && ReplicaLogs(c, logs) && ms != [] && Mergeable(ms, maxStart) && m in ms
    requires Reports(c, logs, ms) && CommittedHeld(c, logs, ms) && GuardPasses(es, ms, maxStart)
    ensures CommitTaken(ms, maxStart, m)
  {
    var op := m.lastcommitted;
    if maxStart <= op && Has(m, op) {
      GuardCovers(es, ms, maxStart, op);
      var k := HeldTakenAsCommitted(c, logs, maxStart, ms, op, At(m, op).hash);
    }
  }

  /** What the merge lemmas ask of the latest reports. */
  lemma LatestFits(c: Config, logs: seq<seq<Entry>>, leader: nat, committed: nat, maxStart: nat,
                   dvcs: seq<DoViewChange>)
    requires ViewChange(c, logs, leader, committed, maxStart, dvcs)
    ensures var ms := Latest(dvcs);
            && ms != [] && Mergeable(ms, maxStart) && CommittedSupported(c, ms, maxStart) && CommitsTaken(ms, maxStart)
            && forall m :: m in ms ==> Shares(m, maxStart, logs[leader][maxStart - 1].hash)
  {
    LatestViewChange(c, logs, leader, committed, maxStart, dvcs);
    var ms := Latest(dvcs);
    if Stage1(ms, maxStart) != [] {
      LastTaken(ms, maxStart, Stage1(ms, maxStart)[|Stage1(ms, maxStart)| - 1]);
      GuardCovers(logs[leader], ms, maxStart, MostCommitted(ms).lastcommitted);
    }
    CommitsSupported(c, logs, maxStart, dvcs, ms);
    forall m | m in ms
      ensures Shares(m, maxStart, logs[leader][maxStart - 1].hash) && CommitTaken(ms, maxStart, m)
    {
      ReportOrdered(m, logs[m.replicaidx]);
      OwnCommitTaken(c, logs, logs[leader], maxStart, ms, m);
    }
  }

  /** The merged log continues the leader's. */
  lemma MergeContinues(c: Config, logs: seq<seq<Entry>>, leader: nat, committed: nat, newView: nat, maxStart: nat,
                       dvcs: seq<DoViewChange>, out: seq<Entry>)
    requires ViewChange(c, logs, leader, committed, maxStart, dvcs) && Mergeable(Latest(dvcs), maxStart)
    requires IsMerge(c, newView, maxStart, Latest(dvcs), out)
    ensures out != [] && out[0].opnum == maxStart && SpecReplica.Grafts(logs[leader], out)
  {
    var ms := Latest(dvcs);
    LatestFits(c, logs, leader, committed, maxStart, dvcs);
    forall m, e | m in ms && e in m.entries
      ensures NoRepeats(e.hash)
    {
      InOrderNoRepeats(e.hash);
    }
    var run :| MergedWith(c, newView, maxStart, ms, run, out);
    var b := Base(ms, maxStart, run);
    SupportedTaken(c, ms, maxStart, run);
    ConsiderAllPrefix(Acc(b, Ids(b)), newView, maxStart, ms);
    MergedGrafts(c, logs[leader], newView, maxStart, ms, out);
  }

  /** With the clients in order in the reports, they are in order in the log the merge aims for. */
  lemma TargetIncreasing(c: Config, logs: seq<seq<Entry>>, leader: nat, committed: nat, newView: nat, maxStart: nat,
                         dvcs: seq<DoViewChange>, out: seq<Entry>)
    requires ViewChange(c, logs, leader, committed, maxStart, dvcs) && Mergeable(Latest(dvcs), maxStart)
    requires IsMerge(c, newView, maxStart, Latest(dvcs), out) && ClientsInOrder(Latest(dvcs))
    requires out != [] && out[0].opnum == maxStart && SpecReplica.Grafts(logs[leader], out)
    ensures ClientTables.Increasing(SpecReplica.Target(logs[leader], out))
  {
    var ms, es := Latest(dvcs), logs[leader];
    LatestFits(c, logs, leader, committed, maxStart, dvcs);
    var run :| MergedWith(c, newView, maxStart, ms, run, out);
    SupportedTaken(c, ms, maxStart, run);
    MergedFirst(c, es, ms, maxStart, run);
    MergeInOrder(c, newView, maxStart, ms, run, out, es[maxStart - 1].hash);
    LastHashDecides(es, out);
  }

  lemma LastHashDecides(es: seq<Entry>, out: seq<Entry>)
    requires CompleteLog(es) && SpecReplica.Grafts(es, out) && out != [] && InOrder(out[|out| - 1].hash)
    ensures ClientTables.Increasing(SpecReplica.Target(es, out))
  {
    SpecReplica.TargetChained(es, out);
    InOrderIncreasing(SpecReplica.Target(es, out));
  }

  /** What a fast quorum holds is in the log the merge aims for, in its place. */
  lemma HeldInTarget(c: Config, logs: seq<seq<Entry>>, leader: nat, committed: nat, newView: nat, maxStart: nat,
                     dvcs: seq<DoViewChange>, out: seq<Entry>, op: nat, h: Hash)
    requires ViewChange(c, logs, leader, committed, maxStart, dvcs) && Mergeable(Latest(dvcs), maxStart)
    requires IsMerge(c, newView, maxStart, Latest(dvcs), out)
    requires out != [] && out[0].opnum == maxStart && SpecReplica.Grafts(logs[leader], out)
    requires op >= 1 && FastHeld(c, logs, op, h)
    ensures Holds(SpecReplica.Target(logs[leader], out), op, h)
  {
    var es, ms := logs[leader], Latest(dvcs);
    LatestViewChange(c, logs, leader, committed, maxStart, dvcs);
    assert HeldReported(c, logs, dvcs, op, h);
    if op >= maxStart {
      GuardCovers(es, ms, maxStart, op);
      MergeSafety(c, logs, newView, maxStart, dvcs, out, op, h);
      TargetHolds(es, out, op, h);
    } else {
      HeldByLeader(c, logs, es, maxStart, dvcs, ms, op, h);
    }
  }

  lemma TargetHolds(es: seq<Entry>, out: seq<Entry>, op: nat, h: Hash)
    requires out != [] && SpecReplica.Grafts(es, out) && exists e :: e in out && e.opnum == op && e.hash == h
    ensures Holds(SpecReplica.Target(es, out), op, h)
  {
    var e :| e in out && e.opnum == op && e.hash == h;
    var i :| 0 <= i < |out| && out[i] == e;
    assert SpecReplica.Target(es, out)[op - 1] == e;
  }

  /** Before maxStart the leader already has what a fast quorum holds. */
  lemma HeldByLeader(c: Config, logs: seq<seq<Entry>>, es: seq<Entry>, maxStart: nat, dvcs: seq<DoViewChange>,
                     ms: seq<DoViewChange>, op: nat, h: Hash)
    requires ValidConfig(c) && ReplicaLogs(c, logs) && CompleteLog(es) && ms == Latest(dvcs) && Reports(c, logs, ms)
    requires GuardPasses(es, ms, maxStart) && 1 <= op < maxStart
    requires FastHeld(c, logs, op, h) && HoldersReport(c, logs, dvcs, op, h)
    ensures Holds(es, op, h)
  {
    EnoughHoldersReport(c, logs, dvcs, op, h);
    var m := SomeHolderReports(c, logs, ms, op, h);
    HoldersAgreeBefore(logs[m.replicaidx], es, maxStart, es[maxStart - 1].hash, op);
  }

  lemma AgreesBelow(es: seq<Entry>, t: seq<Entry>, op: nat)
    requires CompleteLog(es) && CompleteLog(t) && 1 <= op <= |es| && Holds(t, op, es[op - 1].hash)
    ensures forall i :: 0 <= i < op ==> t[i].hash == es[i].hash
  {
    forall i | 0 <= i < op
      ensures t[i].hash == es[i].hash
    {
      HoldersAgreeBefore(t, es, op, es[op - 1].hash, i + 1);
    }
  }

  lemma OrderInstalls(c: Config, logs: seq<seq<Entry>>, leader: nat, committed: nat, newView: nat, maxStart: nat,
                      dvcs: seq<DoViewChange>, out: seq<Entry>)
    requires ViewChange(c, logs, leader, committed, maxStart, dvcs) && Mergeable(Latest(dvcs), maxStart)
    requires IsMerge(c, newView, maxStart, Latest(dvcs), out)
    requires out != [] && out[0].opnum == maxStart && SpecReplica.Grafts(logs[leader], out)
    requires ClientTables.Increasing(SpecReplica.Target(logs[leader], out))
    ensures SpecReplica.Installable(logs[leader], out, committed)
  {
    var es := logs[leader];
    var t := SpecReplica.Target(es, out);
    ClientTables.IncreasingAccepted(t);
    SpecReplica.TargetChained(es, out);
    if committed > 0 {
      HeldInTarget(c, logs, leader, committed, newView, maxStart, dvcs, out, committed, es[committed - 1].hash);
      AgreesBelow(es, t, committed);
    }
  }

  /**
   * Everything the code asserts while installing the merged log holds, when whoever reports a request has the
   * same client's lower-numbered ones before it.
   */
  lemma MergedInstallable(c: Config, logs: seq<seq<Entry>>, leader: nat, committed: nat, newView: nat, maxStart: nat,
                          dvcs: seq<DoViewChange>, out: seq<Entry>)
    requires ViewChange(c, logs, leader, committed, maxStart, dvcs) && Mergeable(Latest(dvcs), maxStart)
    requires IsMerge(c, newView, maxStart, Latest(dvcs), out) && ClientsInOrder(Latest(dvcs))
    ensures SpecReplica.Installable(logs[leader], out, committed)
  {
    MergeContinues(c, logs, leader, committed, newView, maxStart, dvcs, out);
    TargetIncreasing(c, logs, leader, committed, newView, maxStart, dvcs, out);
    OrderInstalls(c, logs, leader, committed, newView, maxStart, dvcs, out);
  }

  /** Reported and own requests are numbered from 1. */
  lemma TargetPositive(c: Config, logs: seq<seq<Entry>>, leader: nat, committed: nat, newView: nat, maxStart: nat,
                       dvcs: seq<DoViewChange>, out: seq<Entry>)
    requires ViewChange(c, logs, leader, committed, maxStart, dvcs) && Mergeable(Latest(dvcs), maxStart)
    requires IsMerge(c, newView, maxStart, Latest(dvcs), out) && out != [] && SpecReplica.Grafts(logs[leader], out)
    ensures forall e :: e in SpecReplica.Target(logs[leader], out) ==> e.request.clientreqid >= 1
  {
    var es, ms := logs[leader], Latest(dvcs);
    LatestFits(c, logs, leader, committed, maxStart, dvcs);
    MergeSound(c, newView, maxStart, ms, out);
    forall e | e in SpecReplica.Target(es, out)
      ensures e.request.clientreqid >= 1
    {
      if e in out {
        ReportedPositive(ms, e.request);
      } else {
        var i :| 0 <= i < |es| && es[i] == e;
        assert ClientTables.FreshAt(es, i);
      }
    }
  }

  lemma ReportedPositive(ms: seq<DoViewChange>, r: Request)
    requires AllReported(ms) && FromReports(ms, r) && forall m :: m in ms ==> ReportInOrder(m)
    ensures r.clientreqid >= 1
  {
    var m, op :| m in ms && Has(m, op) && At(m, op).request == r;
    assert At(m, op) in m.entries;
  }

  /**
   * Exactly when the code's assertions hold for a merged log: no leftover comes after a higher number of its
   * client.
   */
  lemma InstallableExactly(c: Config, logs: seq<seq<Entry>>, leader: nat, committed: nat, newView: nat, maxStart: nat,
                           dvcs: seq<DoViewChange>, run: seq<Entry>, out: seq<Entry>)
    requires ViewChange(c, logs, leader, committed, maxStart, dvcs) && Mergeable(Latest(dvcs), maxStart)
    requires MergedWith(c, newView, maxStart, Latest(dvcs), run, out)
    ensures SpecReplica.Installable(logs[leader], out, committed) <==>
              LeftoversFit(Ids(Base(Latest(dvcs), maxStart, run)), maxStart, Latest(dvcs))
  {
    var es, ms := logs[leader], Latest(dvcs);
    LatestFits(c, logs, leader, committed, maxStart, dvcs);
    MergeContinues(c, logs, leader, committed, newView, maxStart, dvcs, out);
    SupportedTaken(c, ms, maxStart, run);
    MergedFirst(c, es, ms, maxStart, run);
    MergeInOrderExactly(c, newView, maxStart, ms, run, out, es[maxStart - 1].hash);
    if InOrder(out[|out| - 1].hash) {
      LastHashDecides(es, out);
      OrderInstalls(c, logs, leader, committed, newView, maxStart, dvcs, out);
    }
    if SpecReplica.Installable(es, out, committed) {
      TargetPositive(c, logs, leader, committed, newView, maxStart, dvcs, out);
      AcceptedDecides(es, out);
    }
  }

  lemma AcceptedDecides(es: seq<Entry>, out: seq<Entry>)
    requires CompleteLog(es) && SpecReplica.Grafts(es, out) && out != [] && NoRepeats(out[|out| - 1].hash)
    requires ClientTables.Accepted(SpecReplica.Target(es, out))
    requires forall e :: e in SpecReplica.Target(es, out) ==> e.request.clientreqid >= 1
    ensures InOrder(out[|out| - 1].hash)
  {
    var t := SpecReplica.Target(es, out);
    SpecReplica.TargetChained(es, out);
    AcceptedIncreasing(t);
    IncreasingInOrder(t, |t| - 1);
  }

  /**
   * The new leader merges the reports and installs the result. Afterwards its log has everything that a fast
   * quorum held, in its place, and it has committed as far as it had or, if that is further and not before maxStart,
   * as far as a latest reporter.
   */
  method Reconcile(r: SpecReplica.Replica, c: Config, newView: nat, maxStart: nat, dvcs: seq<DoViewChange>,
                   ghost logs: seq<seq<Entry>>, ghost leader: nat)
    requires r.Valid() && ViewChange(c, logs, leader, r.lastCommitted, maxStart, dvcs) && logs[leader] == r.log.entries
    requires Mergeable(Latest(dvcs), maxStart) && ClientsInOrder(Latest(dvcs))
    modifies r`lastSpeculative, r`lastCommitted, r`clientTable, r.log
    ensures r.Valid()
    ensures var n := MostCommitted(Latest(dvcs)).lastcommitted;
            r.lastCommitted == if maxStart <= n then Max(old(r.lastCommitted), n) else old(r.lastCommitted)
    ensures forall op: nat, h :: op >= 1 && FastHeld(c, logs, op, h) ==> Holds(r.log.entries, op, h)
  {
    ghost var es := r.log.entries;
    var merged := MergeLogs(c, newView, maxStart, dvcs);
    MergedInstallable(c, logs, leader, r.lastCommitted, newView, maxStart, dvcs, merged);
    MergeContinues(c, logs, leader, r.lastCommitted, newView, maxStart, dvcs, merged);
    CommitPointOfMerge(c, newView, maxStart, Latest(dvcs), merged);
    r.InstallLog(merged);
    forall op: nat, h | op >= 1 && FastHeld(c, logs, op, h)
      ensures Holds(r.log.entries, op, h)
    {
      HeldInTarget(c, logs, leader, old(r.lastCommitted), newView, maxStart, dvcs, merged, op, h);
    }
  }
}

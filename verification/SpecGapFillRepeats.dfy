/** How the merge after gap filling comes to hold an operation twice, and that it then is executed twice. */
module SpecGapFillRepeats {
  import opened Quorums
  import opened Logs
  import opened ClientTables
  import opened SpecMerge
  import opened SpecMergeShape
  import opened SpecMergeSafety
  import opened SpecClientOrder
  import opened SpecReconciliation
  import opened SpecGapFill
  import SpecReplica

  // Replicas that all have the same log.

  ghost predicate SameLogs(logs: seq<seq<Entry>>, log: seq<Entry>) {
    CompleteLog(log) && Increasing(log) && forall r :: 0 <= r < |logs| ==> SpecReplica.SameHashes(logs[r], log)
  }

  lemma HeldByAll(c: Config, logs: seq<seq<Entry>>, op: nat, h: Hash)
    requires ValidConfig(c) && |logs| == c.n && forall r :: 0 <= r < c.n ==> Holds(logs[r], op, h)
    ensures FastHeld(c, logs, op, h)
  {
    SubsetCount(Replicas(c.n), Holders(c, logs, op, h));
  }

  lemma {:induction false} SeenGrowsRange(seen: set<RequestId>, m: DoViewChange, lo: nat, hi: nat)
    requires Reported(m) && forall i :: lo <= i < hi ==> Has(m, i)
    ensures seen <= SeenRange(seen, m, lo, hi)
    ensures forall i :: lo <= i < hi ==> Id(At(m, i).request) in SeenRange(seen, m, lo, hi)
    decreases hi
  {
    if lo < hi {
      SeenGrowsRange(seen, m, lo, hi - 1);
    }
  }

  lemma {:induction false} SeenTakesAll(seen: set<RequestId>, ms: seq<DoViewChange>, m: DoViewChange, op: nat)
    requires Mergeable(ms, 0) && m in ms && LeftoverStart(m, 0) <= op <= m.lastspeculative
    ensures Has(m, op) && Id(At(m, op).request) in SeenAll(seen, 0, ms)
  {
    var n := |ms| - 1;
    SeenGrowsRange(SeenAll(seen, 0, ms[..n]), ms[n], LeftoverStart(ms[n], 0), ms[n].lastspeculative + 1);
    if m != ms[n] {
      SeenTakesAll(seen, ms[..n], m, op);
    }
  }

  /** What the merge starts with comes from the operations it starts at. */
  lemma BaseFromLog(c: Config, logs: seq<seq<Entry>>, ms: seq<DoViewChange>, run: seq<Entry>, log: seq<Entry>, i: nat)
    requires ReplicaLogs(c, logs) && SameLogs(logs, log) && Reports(c, logs, ms) && ms != [] && Mergeable(ms, 0)
    requires AgreedRun(c, ms, Stage2Start(ms, 0), run) && i < |Base(ms, 0, run)|
    ensures var e := Base(ms, 0, run)[i]; Holds(log, e.opnum, e.hash) && Id(e.request) == Id(log[e.opnum - 1].request)
  {
    var m := BaseEntry(c, ms, 0, run, i);
    var op := Base(ms, 0, run)[i].opnum;
    assert ChainedAt(EmptyHash, log, op - 1);
  }

  lemma NotInBase(c: Config, logs: seq<seq<Entry>>, ms: seq<DoViewChange>, run: seq<Entry>, log: seq<Entry>, op: nat)
    requires ReplicaLogs(c, logs) && SameLogs(logs, log) && Reports(c, logs, ms) && ms != [] && Mergeable(ms, 0)
    requires AgreedRun(c, ms, Stage2Start(ms, 0), run) && 1 <= op <= |log|
    requires Base(ms, 0, run) != [] ==> op < Base(ms, 0, run)[0].opnum
    ensures Id(log[op - 1].request) !in Ids(Base(ms, 0, run))
  {
    var b := Base(ms, 0, run);
    IncreasingInOrder(log, |log| - 1);
    InOrderNoRepeats(log[|log| - 1].hash);
    DistinctByHash(log);
    BaseNumbered(c, ms, 0, run);
    forall e | e in b
      ensures Id(e.request) != Id(log[op - 1].request)
    {
      var i :| 0 <= i < |b| && b[i] == e;
      BaseFromLog(c, logs, ms, run, log, i);
    }
  }

  /**
   * Even when all replicas have the same log, an operation is in the new log twice as soon as a reporter has not
   * committed up to where the merge starts.
   */
  lemma LaggingRepeats(c: Config, logs: seq<seq<Entry>>, leader: nat, committed: nat, newView: nat,
                       dvcs: seq<DoViewChange>, run: seq<Entry>, out: seq<Entry>, log: seq<Entry>, m: DoViewChange)
    requires FilledChange(c, logs, leader, committed, dvcs) && Mergeable(Latest(dvcs), 0) && SameLogs(logs, log)
    requires MergedWith(c, newView, 0, Latest(dvcs), run, out)
    requires m in Latest(dvcs) && out != [] && m.lastcommitted + 1 < out[0].opnum
    ensures SpecReplica.Grafts(logs[leader], out) && !DistinctIds(SpecReplica.Target(logs[leader], out))
  {
    var ms := Latest(dvcs);
    LatestFilled(c, logs, leader, committed, dvcs);
    RepeatsExactly(c, logs, leader, committed, newView, dvcs, run, out);
    FilledStart(c, logs, leader, committed, newView, ms, run, out);
    LaggingNotNew(c, logs, newView, ms, run, out, log, logs[leader], m);
  }

  lemma SameRequests(a: seq<Entry>, b: seq<Entry>, i: nat)
    requires CompleteLog(a) && CompleteLog(b) && SpecReplica.SameHashes(a, b) && i < |a|
    ensures Id(a[i].request) == Id(b[i].request)
  {
    assert ChainedAt(EmptyHash, a, i) && ChainedAt(EmptyHash, b, i);
  }

  lemma BeforeStart(es: seq<Entry>, log: seq<Entry>, i: nat, start: nat)
    requires CompleteLog(es) && CompleteLog(log) && SpecReplica.SameHashes(es, log) && i + 1 < start <= |log|
    ensures Id(log[i].request) in History(HashUpTo(EmptyHash, es, start - 1))
  {
    SameRequests(es, log, i);
    EntryInHistory(es, i, start - 2);
  }

  lemma MergeStartsAtBase(c: Config, newView: nat, ms: seq<DoViewChange>, run: seq<Entry>, out: seq<Entry>)
    requires ms != [] && Mergeable(ms, 0) && MergedWith(c, newView, 0, ms, run, out) && out != [] && out[0].opnum > 1
    ensures Base(ms, 0, run) != [] && Base(ms, 0, run)[0] == out[0]
  {
    var b := Base(ms, 0, run);
    ConsiderAllPrefix(Acc(b, Ids(b)), newView, 0, ms);
    ConsiderAllFirst(Acc([], Ids([])), newView, 0, ms);
  }

  lemma LaggingNotNew(c: Config, logs: seq<seq<Entry>>, newView: nat, ms: seq<DoViewChange>, run: seq<Entry>,
                      out: seq<Entry>, log: seq<Entry>, es: seq<Entry>, m: DoViewChange)
    requires ReplicaLogs(c, logs) && SameLogs(logs, log) && Reports(c, logs, ms) && Mergeable(ms, 0) && ms != []
    requires CompleteLog(es) && SpecReplica.SameHashes(es, log) && MergedWith(c, newView, 0, ms, run, out)
    requires out != [] && m in ms && m.lastcommitted + 1 < out[0].opnum <= |log|
    ensures !LeftoversNew(History(HashUpTo(EmptyHash, es, out[0].opnum - 1)), Ids(Base(ms, 0, run)), 0, ms)
  {
    var i := m.lastcommitted;
    MergeStartsAtBase(c, newView, ms, run, out);
    LaggingTaken(c, logs, ms, run, log, m);
    BeforeStart(es, log, i, out[0].opnum);
    SeenNotNew(History(HashUpTo(EmptyHash, es, out[0].opnum - 1)), Ids(Base(ms, 0, run)), ms, Id(log[i].request));
  }

  lemma LaggingTaken(c: Config, logs: seq<seq<Entry>>, ms: seq<DoViewChange>, run: seq<Entry>, log: seq<Entry>,
                     m: DoViewChange)
    requires ReplicaLogs(c, logs) && SameLogs(logs, log) && Reports(c, logs, ms) && Mergeable(ms, 0) && ms != []
    requires AgreedRun(c, ms, Stage2Start(ms, 0), run) && m in ms && m.lastcommitted < |log|
    requires Base(ms, 0, run) != [] && m.lastcommitted + 1 < Base(ms, 0, run)[0].opnum
    ensures var id, seen := Id(log[m.lastcommitted].request), Ids(Base(ms, 0, run));
            id in SeenAll(seen, 0, ms) && id !in seen
  {
    NotInBase(c, logs, ms, run, log, m.lastcommitted + 1);
    LeftoverSeen(c, logs, Ids(Base(ms, 0, run)), ms, log, m);
  }

  lemma SeenNotNew(pre: set<RequestId>, seen: set<RequestId>, ms: seq<DoViewChange>, id: RequestId)
    requires Mergeable(ms, 0) && id in SeenAll(seen, 0, ms) && id !in seen && id in pre
    ensures !LeftoversNew(pre, seen, 0, ms)
  {
    assert id in SeenAll(seen, 0, ms) - seen;
  }

  /** The first operation a reporter has not committed is a leftover. */
  lemma LeftoverSeen(c: Config, logs: seq<seq<Entry>>, seen: set<RequestId>, ms: seq<DoViewChange>, log: seq<Entry>,
                     m: DoViewChange)
    requires ReplicaLogs(c, logs) && SameLogs(logs, log) && Reports(c, logs, ms) && Mergeable(ms, 0)
    requires m in ms && m.lastcommitted < |log|
    ensures Id(log[m.lastcommitted].request) in SeenAll(seen, 0, ms)
  {
    SeenTakesAll(seen, ms, m, m.lastcommitted + 1);
    SameRequests(logs[m.replicaidx], log, m.lastcommitted);
  }

  // An operation that all have is executed twice.

  lemma {:induction false} AllInView(dvcs: seq<DoViewChange>, v: nat)
    requires forall i :: 0 <= i < |dvcs| ==> dvcs[i].lastnormalview == v
    ensures InView(dvcs, v) == dvcs
  {
    if dvcs != [] {
      var n := |dvcs| - 1;
      AllInView(dvcs[..n], v);
      assert InView(dvcs, v) == dvcs[..n] + [dvcs[n]];
    }
  }

  lemma OneViewLatest(dvcs: seq<DoViewChange>)
    requires dvcs != [] && forall i :: 0 <= i < |dvcs| ==> dvcs[i].lastnormalview == 0
    ensures Latest(dvcs) == dvcs
  {
    AllInView(dvcs, 0);
  }

  lemma {:induction false} FirstIsMostCommitted(ms: seq<DoViewChange>)
    requires ms != [] && forall m :: m in ms ==> m.lastcommitted <= ms[0].lastcommitted
    ensures MostCommitted(ms) == ms[0]
  {
    var n := |ms| - 1;
    assert ms[n] in ms;
    if n > 0 {
      FirstIsMostCommitted(ms[..n]);
    }
  }

  /** With every number 1, none can fall. */
  lemma {:induction false} OnesRange(pre: set<RequestId>, seen: set<RequestId>, m: DoViewChange, lo: nat, hi: nat)
    requires Reported(m) && (forall i :: lo <= i < hi ==> Has(m, i)) && (forall x :: x in pre + seen ==> x.1 == 1)
    requires forall e :: e in m.entries ==> e.request.clientreqid == 1
    ensures RangeAccepted(pre, seen, m, lo, hi) && forall x :: x in SeenRange(seen, m, lo, hi) ==> x.1 == 1
    decreases hi
  {
    if lo < hi {
      OnesRange(pre, seen, m, lo, hi - 1);
      assert Has(m, hi - 1);
      ReportedEntry(m, hi - 1);
    }
  }

  lemma {:induction false} OnesAccepted(pre: set<RequestId>, seen: set<RequestId>, ms: seq<DoViewChange>)
    requires Mergeable(ms, 0) && forall x :: x in pre + seen ==> x.1 == 1
    requires forall m, e :: m in ms && e in m.entries ==> e.request.clientreqid == 1
    ensures LeftoversAccepted(pre, seen, 0, ms) && forall x :: x in SeenAll(seen, 0, ms) ==> x.1 == 1
  {
    if ms != [] {
      var n := |ms| - 1;
      assert ms[n] in ms;
      OnesAccepted(pre, seen, ms[..n]);
      OnesRange(pre, SeenAll(seen, 0, ms[..n]), ms[n], LeftoverStart(ms[n], 0), ms[n].lastspeculative + 1);
    }
  }

  /** The log as a replica has it that has committed the first `k` operations. */
  function UpTo(log: seq<Entry>, k: nat): (r: seq<Entry>)
    ensures |r| == |log|
    ensures forall i :: 0 <= i < |r| ==> r[i] == log[i].(state := if i < k then Committed else Speculative)
  {
    seq(|log|, i requires 0 <= i < |log| => log[i].(state := if i < k then Committed else Speculative))
  }

  lemma UpToOk(log: seq<Entry>, k: nat)
    requires CompleteLog(log) && Increasing(log)
    ensures CompleteLog(UpTo(log, k)) && Increasing(UpTo(log, k)) && SpecReplica.SameHashes(UpTo(log, k), log)
  {
    var r := UpTo(log, k);
    forall i | 0 <= i < |r|
      ensures ChainedAt(EmptyHash, r, i)
    {
      assert ChainedAt(EmptyHash, log, i);
    }
    if log != [] {
      IncreasingInOrder(log, |log| - 1);
      InOrderIncreasing(r);
    }
  }

  /** A replica's report, from operation `first` on. */
  function ReportFrom(idx: nat, log: seq<Entry>, k: nat, first: nat): DoViewChange
    requires 1 <= first <= |log|
  {
    DoViewChange(idx, 0, |log|, k, UpTo(log, k)[first - 1..])
  }

  lemma ReportFromOk(idx: nat, log: seq<Entry>, k: nat, first: nat)
    requires CompleteLog(log) && Increasing(log) && 1 <= first <= |log| && k <= |log|
    ensures ReportOf(ReportFrom(idx, log, k, first), UpTo(log, k))
  {
    UpToOk(log, k);
    var r := UpTo(log, k);
    ChainedSuffixLinked(EmptyHash, r, first - 1);
    forall e | e in r[first - 1..]
      ensures OwnHash(e)
    {
      var i :| 0 <= i < |r| && r[i] == e;
      assert ChainedAt(EmptyHash, r, i);
    }
  }

  /** Five replicas with one log; the third has committed only the first operation. */
  function FiveLogs(log: seq<Entry>): (logs: seq<seq<Entry>>)
    ensures |logs| == 5
  {
    var n := |log|;
    [UpTo(log, n), UpTo(log, n), UpTo(log, 1), UpTo(log, n), UpTo(log, n)]
  }

  /** The first reports from its commit point on; the leader and the one that lags report all they have. */
  function ThreeReports(log: seq<Entry>): (dvcs: seq<DoViewChange>)
    requires log != []
    ensures |dvcs| == 3 && forall i :: 0 <= i < 3 ==> dvcs[i].lastnormalview == 0
  {
    var n := |log|;
    [ReportFrom(0, log, n, n), ReportFrom(1, log, n, 1), ReportFrom(2, log, 1, 1)]
  }

  lemma FiveLogsOk(log: seq<Entry>)
    requires CompleteLog(log) && Increasing(log)
    ensures SameLogs(FiveLogs(log), log) && ReplicaLogs(Config(5, 2), FiveLogs(log))
    ensures forall r :: 0 <= r < 5 ==> Increasing(FiveLogs(log)[r]) && (AllOnes(log) ==> AllOnes(FiveLogs(log)[r]))
  {
    UpToOk(log, |log|);
    UpToOk(log, 1);
  }

  lemma ThreeReportOk(log: seq<Entry>, i: nat)
    requires CompleteLog(log) && Increasing(log) && log != [] && i < 3
    ensures var m := ThreeReports(log)[i];
            m.replicaidx == i && ReportOf(m, FiveLogs(log)[i]) && ReportFilled(m, |log|)
  {
    if i == 0 {
      ReportFromOk(0, log, |log|, |log|);
    } else if i == 1 {
      ReportFromOk(1, log, |log|, 1);
    } else {
      ReportFromOk(2, log, 1, 1);
    }
  }

  lemma ThreeReportsOk(log: seq<Entry>)
    requires CompleteLog(log) && Increasing(log) && log != []
    ensures Reports(Config(5, 2), FiveLogs(log), ThreeReports(log))
    ensures forall m :: m in ThreeReports(log) ==> ReportFilled(m, |log|)
  {
    forall i | 0 <= i < 3
      ensures var m := ThreeReports(log)[i];
              m.replicaidx == i && ReportOf(m, FiveLogs(log)[i]) && ReportFilled(m, |log|)
    {
      ThreeReportOk(log, i);
    }
  }

  lemma AllHeld(c: Config, logs: seq<seq<Entry>>, log: seq<Entry>, r: nat, op: nat)
    requires ValidConfig(c) && |logs| == c.n && SameLogs(logs, log) && r < c.n && 1 <= op <= |log|
    ensures op <= |logs[r]| && FastHeld(c, logs, op, logs[r][op - 1].hash)
  {
    HeldByAll(c, logs, op, log[op - 1].hash);
  }

  lemma SameLogsChange(c: Config, logs: seq<seq<Entry>>, log: seq<Entry>, leader: nat, dvcs: seq<DoViewChange>)
    requires ValidConfig(c) && ReplicaLogs(c, logs) && SameLogs(logs, log) && leader < c.n && log != []
    requires |dvcs| >= QuorumSize(c) && Latest(dvcs) == dvcs && Decisive(c, dvcs) && Reports(c, logs, dvcs)
    requires forall m :: m in dvcs ==> ReportFilled(m, |log|)
    requires forall r :: 0 <= r < |logs| ==> Increasing(logs[r])
    ensures FilledChange(c, logs, leader, |log|, dvcs)
  {
    AllHeld(c, logs, log, leader, |log|);
    forall m | m in dvcs && m.lastcommitted > 0
      ensures FastHeld(c, logs, m.lastcommitted, logs[m.replicaidx][m.lastcommitted - 1].hash)
    {
      AllHeld(c, logs, log, m.replicaidx, m.lastcommitted);
    }
    forall op: nat, h
      ensures HeldReported(c, logs, dvcs, op, h)
    {
    }
  }

  lemma ThreeReportsChange(log: seq<Entry>)
    requires CompleteLog(log) && Increasing(log) && log != []
    ensures FilledChange(Config(5, 2), FiveLogs(log), 1, |log|, ThreeReports(log))
    ensures Latest(ThreeReports(log)) == ThreeReports(log)
  {
    FiveLogsOk(log);
    ThreeReportsOk(log);
    OneViewLatest(ThreeReports(log));
    SameLogsChange(Config(5, 2), FiveLogs(log), log, 1, ThreeReports(log));
  }

  /** The merge of the three reports starts with the first one's only entry, and stage 2 has nothing to add. */
  function ThreeMerged(log: seq<Entry>, newView: nat): seq<Entry>
    requires log != [] && Mergeable(ThreeReports(log), 0)
  {
    var ms := ThreeReports(log);
    ConsiderAll(Acc(Stage1(ms, 0), Ids(Stage1(ms, 0))), newView, 0, ms).out
  }

  lemma ThreeMerges(log: seq<Entry>, newView: nat)
    requires CompleteLog(log) && Increasing(log) && log != [] && Mergeable(ThreeReports(log), 0)
    ensures var ms, out := ThreeReports(log), ThreeMerged(log, newView);
            MergedWith(Config(5, 2), newView, 0, ms, [], out) && out != [] && out[0].opnum == |log|
  {
    var ms := ThreeReports(log);
    FirstIsMostCommitted(ms);
    CommitIsTaken(ms);
    Stage1Entry(ms, 0, 0);
    Stage1Entry(ms, 0, |Stage1(ms, 0)| - 1);
    ThreeSpeculative(log);
    assert Base(ms, 0, []) == Stage1(ms, 0);
    ConsiderAllPrefix(Acc(Stage1(ms, 0), Ids(Stage1(ms, 0))), newView, 0, ms);
  }

  lemma ThreeSpeculative(log: seq<Entry>)
    requires log != []
    ensures MaxSpeculative(ThreeReports(log)) == |log|
  {
    BoundedSpeculative(ThreeReports(log), |log|);
  }

  lemma {:induction false} BoundedSpeculative(ms: seq<DoViewChange>, n: nat)
    requires forall i :: 0 <= i < |ms| ==> ms[i].lastspeculative <= n
    ensures MaxSpeculative(ms) <= n
  {
    if ms != [] {
      BoundedSpeculative(ms[..|ms| - 1], n);
    }
  }

  lemma HistoryOnes(log: seq<Entry>, i: nat)
    requires CompleteLog(log) && i <= |log| && AllOnes(log)
    ensures forall x :: x in History(HashUpTo(EmptyHash, log, i)) ==> x.1 == 1
  {
    forall x | x in History(HashUpTo(EmptyHash, log, i))
      ensures x.1 == 1
    {
      var p := HistoryInLog(log, i - 1, x);
    }
  }

  predicate AllOnes(log: seq<Entry>) {
    forall i :: 0 <= i < |log| ==> log[i].request.clientreqid == 1
  }

  lemma ReportedOnes(m: DoViewChange, log: seq<Entry>)
    requires ReportOf(m, log) && AllOnes(log)
    ensures forall e :: e in m.entries ==> e.request.clientreqid == 1
  {
    forall e | e in m.entries
      ensures e.request.clientreqid == 1
    {
      assert Has(m, e.opnum) && At(m, e.opnum) == e;
    }
  }

  lemma BaseOnes(c: Config, ms: seq<DoViewChange>, run: seq<Entry>)
    requires ms != [] && Mergeable(ms, 0) && AgreedRun(c, ms, Stage2Start(ms, 0), run)
    requires forall m, e :: m in ms && e in m.entries ==> e.request.clientreqid == 1
    ensures forall x :: x in Ids(Base(ms, 0, run)) ==> x.1 == 1
  {
    var b := Base(ms, 0, run);
    forall e | e in b
      ensures e.request.clientreqid == 1
    {
      var i :| 0 <= i < |b| && b[i] == e;
      var m := BaseEntry(c, ms, 0, run, i);
      assert At(m, e.opnum) in m.entries;
    }
  }

  /** When each client has sent only one request, every merge is installed. */
  lemma OnesInstall(c: Config, logs: seq<seq<Entry>>, leader: nat, committed: nat, newView: nat,
                    dvcs: seq<DoViewChange>, run: seq<Entry>, out: seq<Entry>)
    requires FilledChange(c, logs, leader, committed, dvcs) && Mergeable(Latest(dvcs), 0)
    requires MergedWith(c, newView, 0, Latest(dvcs), run, out) && forall r :: 0 <= r < |logs| ==> AllOnes(logs[r])
    ensures SpecReplica.Installable(logs[leader], out, committed)
  {
    var ms := Latest(dvcs);
    LatestFilled(c, logs, leader, committed, dvcs);
    FilledInstallableExactly(c, logs, leader, committed, newView, dvcs, run, out);
    forall m | m in ms
      ensures forall e :: e in m.entries ==> e.request.clientreqid == 1
    {
      ReportedOnes(m, logs[m.replicaidx]);
    }
    BaseOnes(c, ms, run);
    var i := if out == [] then 0 else out[0].opnum - 1;
    HistoryOnes(logs[leader], i);
    OnesAccepted(History(HashUpTo(EmptyHash, logs[leader], i)), Ids(Base(ms, 0, run)), ms);
  }

  lemma ThreeMergeable(log: seq<Entry>)
    requires CompleteLog(log) && Increasing(log) && log != []
    ensures Mergeable(ThreeReports(log), 0)
  {
    ThreeReportsOk(log);
    FilledMergeable(ThreeReports(log), |log|);
  }

  lemma ThreeInstalled(log: seq<Entry>, newView: nat)
    requires CompleteLog(log) && Increasing(log) && AllOnes(log) && log != [] && Mergeable(ThreeReports(log), 0)
    ensures SpecReplica.Installable(FiveLogs(log)[1], ThreeMerged(log, newView), |log|)
  {
    ThreeReportsChange(log);
    ThreeMerges(log, newView);
    FiveLogsOk(log);
    OnesInstall(Config(5, 2), FiveLogs(log), 1, |log|, newView, ThreeReports(log), [], ThreeMerged(log, newView));
  }

  lemma ThreeRepeated(log: seq<Entry>, newView: nat)
    requires CompleteLog(log) && Increasing(log) && |log| >= 3 && Mergeable(ThreeReports(log), 0)
    ensures var es, out := FiveLogs(log)[1], ThreeMerged(log, newView);
            SpecReplica.Grafts(es, out) && !DistinctIds(SpecReplica.Target(es, out))
  {
    var dvcs := ThreeReports(log);
    ThreeReportsChange(log);
    ThreeMerges(log, newView);
    FiveLogsOk(log);
    LaggingRepeats(Config(5, 2), FiveLogs(log), 1, |log|, newView, dvcs, [], ThreeMerged(log, newView), log, dvcs[2]);
  }

  /**
   * Five replicas have the same log, of three or more clients' first requests; all but one have committed it; and
   * the merge after gap filling is installed, with an operation twice.
   */
  lemma ExecutedTwice(log: seq<Entry>, newView: nat)
    requires CompleteLog(log) && Increasing(log) && AllOnes(log) && |log| >= 3
    ensures var c, logs, dvcs := Config(5, 2), FiveLogs(log), ThreeReports(log);
            && FilledChange(c, logs, 1, |log|, dvcs) && Mergeable(dvcs, 0) && Latest(dvcs) == dvcs
            && var out := ThreeMerged(log, newView);
               && IsMerge(c, newView, 0, dvcs, out)
               && SpecReplica.Installable(logs[1], out, |log|) && !DistinctIds(SpecReplica.Target(logs[1], out))
  {
    ThreeReportsChange(log);
    ThreeMergeable(log);
    ThreeMerges(log, newView);
    ThreeInstalled(log, newView);
    ThreeRepeated(log, newView);
  }

  /** One request each of `n` clients: such logs exist. */
  function OneEach(n: nat): (log: seq<Entry>)
    ensures |log| == n && forall i :: 0 <= i < n ==> log[i].opnum == i + 1 && Id(log[i].request) == (i + 1, 1)
  {
    if n == 0 then []
    else
      var log, req := OneEach(n - 1), Request(n, 1, "");
      log + [Entry(0, n, Speculative, req, ComputeHash(HashUpTo(EmptyHash, log, n - 1), req), 0)]
  }

  lemma {:induction false} OneEachChained(n: nat, i: nat)
    requires i < n
    ensures ChainedAt(EmptyHash, OneEach(n), i)
    decreases n
  {
    if i < n - 1 {
      OneEachChained(n - 1, i);
    }
  }

  lemma OneEachOk(n: nat)
    ensures CompleteLog(OneEach(n)) && AllOnes(OneEach(n)) && Increasing(OneEach(n))
  {
    var log := OneEach(n);
    forall i | 0 <= i < n
      ensures ChainedAt(EmptyHash, log, i)
    {
      OneEachChained(n, i);
    }
    if n > 0 {
      OneEachInOrder(log, n - 1);
      InOrderIncreasing(log);
    }
  }

  lemma {:induction false} OneEachInOrder(log: seq<Entry>, i: nat)
    requires CompleteLog(log) && i < |log| && forall j :: 0 <= j < |log| ==> Id(log[j].request) == (j + 1, 1)
    ensures InOrder(log[i].hash)
    decreases i
  {
    assert ChainedAt(EmptyHash, log, i);
    if i > 0 {
      OneEachInOrder(log, i - 1);
      forall x | x in History(log[i - 1].hash)
        ensures x.0 != i + 1
      {
        var p := HistoryInLog(log, i - 1, x);
      }
    }
  }
}

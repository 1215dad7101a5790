/**
 * Two reports whose merge the new leader cannot install: a leftover comes after a higher number of its client,
 * and the assertion on recording it fails.
 */
module SpecOvertaking {
  import opened Quorums
  import opened Logs
  import opened SpecMerge
  import opened SpecMergeShape
  import opened SpecMergeSafety
  import opened SpecClientOrder
  import opened SpecReconciliation
  import ClientTables
  import SpecReplica

  const ThreeReplicas := Config(3, 1)

  const FirstHash := Link(EmptyHash, (1, 1))

  /** A log of two operations: one that both reporters share, and request `k` of client 7. */
  function LogWith(k: nat): seq<Entry> {
    [Entry(0, 1, Speculative, Request(1, 1, ""), FirstHash, 0),
     Entry(0, 2, Speculative, Request(7, k, ""), Link(FirstHash, (7, k)), 0)]
  }

  function ReportWith(idx: nat, k: nat): DoViewChange {
    DoViewChange(idx, 0, 2, 0, LogWith(k))
  }

  function TheLogs(): seq<seq<Entry>> {
    [LogWith(2), LogWith(1), []]
  }

  function TheReports(): seq<DoViewChange> {
    [ReportWith(0, 2), ReportWith(1, 1)]
  }

  lemma LogOk(k: nat)
    requires k >= 1
    ensures CompleteLog(LogWith(k)) && ClientTables.Increasing(LogWith(k))
  {
    var log := LogWith(k);
    assert ChainedAt(EmptyHash, log, 0) && ChainedAt(EmptyHash, log, 1);
    InOrderIncreasing(log);
  }

  lemma ReportOk(idx: nat, k: nat)
    ensures Reported(ReportWith(idx, k)) && LongEnough(ReportWith(idx, k), 1)
    ensures ReportOf(ReportWith(idx, k), LogWith(k))
    ensures forall op :: Has(ReportWith(idx, k), op) ==> At(ReportWith(idx, k), op) == LogWith(k)[op - 1]
  {
    assert LinkedAt(LogWith(k), 1);
  }

  lemma LatestAreAll()
    ensures Latest(TheReports()) == TheReports()
  {
    var ds := TheReports();
    assert ds[..1] == [ds[0]] && ds[..1][..0] == [];
    assert MaxView(ds[..1]) == 0 && MaxView(ds) == 0;
    assert InView(ds[..1], 0) == [ds[0]];
  }

  lemma ReportsOk()
    ensures Mergeable(TheReports(), 1) && Reports(ThreeReplicas, TheLogs(), TheReports())
    ensures ReplicaLogs(ThreeReplicas, TheLogs()) && forall r :: 0 <= r < 3 ==> ClientTables.Increasing(TheLogs()[r])
  {
    ReportOk(0, 2);
    ReportOk(1, 1);
    LogOk(2);
    LogOk(1);
  }

  /** Nothing is on a fast quorum, which takes all three replicas. */
  lemma NothingHeld(op: nat, h: Hash)
    ensures HeldReported(ThreeReplicas, TheLogs(), TheReports(), op, h)
  {
    var hold := Holders(ThreeReplicas, TheLogs(), op, h);
    assert hold <= {0, 1};
    SubsetCount(hold, {0, 1});
  }

  lemma VotesOf(op: nat, h: Hash)
    requires AllReported(TheReports())
    ensures Count(TheReports(), op, h) ==
            (if Votes(TheReports()[0], op, h) then 1 else 0) + (if Votes(TheReports()[1], op, h) then 1 else 0)
  {
    var ds := TheReports();
    assert ds[..1] == [ds[0]] && ds[..1][..0] == [];
    assert Count(ds[..1], op, h) == if Votes(ds[0], op, h) then 1 else 0;
  }

  /** The one entry that the reports agree on. */
  function AgreedRunOf(): seq<Entry>
    requires AllReported(TheReports()) && Count(TheReports(), 1, FirstHash) > 0
  {
    [Agreed(TheReports(), 1, FirstHash)]
  }

  lemma Stages()
    requires Mergeable(TheReports(), 1)
    ensures Stage1(TheReports(), 1) == [] && Stage2Start(TheReports(), 1) == 1
    ensures Supported(ThreeReplicas, TheReports(), 1, FirstHash) && Decisive(ThreeReplicas, TheReports())
    ensures Count(TheReports(), 1, FirstHash) == 2 && AgreedRun(ThreeReplicas, TheReports(), 1, AgreedRunOf())
  {
    var ds := TheReports();
    CommittedSlice(MostCommitted(ds).entries, 1, 0);
    VotesOf(1, FirstHash);
    assert AgreedIn(ThreeReplicas, ds, 1, AgreedRunOf(), 0);
    NoneAgreedNext();
  }

  lemma NoneAgreedNext()
    requires AllReported(TheReports())
    ensures Unsupported(ThreeReplicas, TheReports(), 2)
  {
    forall h
      ensures !Supported(ThreeReplicas, TheReports(), 2, h)
    {
      VotesOf(2, h);
    }
  }

  lemma GuardHolds()
    requires AllReported(TheReports())
    ensures GuardPasses(TheLogs()[0], TheReports(), 1)
  {
  }

  lemma NothingCommitted()
    requires Reports(ThreeReplicas, TheLogs(), TheReports())
    ensures CommittedHeld(ThreeReplicas, TheLogs(), TheReports())
  {
  }

  lemma NothingHeldAnywhere()
    ensures HoldersLatest(ThreeReplicas, TheLogs(), TheReports())
  {
    forall op: nat, h
      ensures HeldReported(ThreeReplicas, TheLogs(), TheReports(), op, h)
    {
      NothingHeld(op, h);
    }
  }

  lemma IsViewChange(logs: seq<seq<Entry>>, ds: seq<DoViewChange>)
    requires Latest(ds) == ds && |ds| == 2 && Mergeable(ds, 1) && Decisive(ThreeReplicas, ds) && |logs| == 3
    requires ReplicaLogs(ThreeReplicas, logs) && forall r :: 0 <= r < 3 ==> ClientTables.Increasing(logs[r])
    requires Reports(ThreeReplicas, logs, ds) && CommittedHeld(ThreeReplicas, logs, ds)
    requires HoldersLatest(ThreeReplicas, logs, ds)
    requires GuardPasses(logs[0], ds, 1) && Supported(ThreeReplicas, ds, 1, FirstHash)
    ensures ViewChange(ThreeReplicas, logs, 0, 0, 1, ds)
  {
  }

  lemma TheViewChange()
    ensures ViewChange(ThreeReplicas, TheLogs(), 0, 0, 1, TheReports()) && Latest(TheReports()) == TheReports()
  {
    LatestAreAll();
    ReportsOk();
    Stages();
    GuardHolds();
    NothingCommitted();
    NothingHeldAnywhere();
    IsViewChange(TheLogs(), TheReports());
  }

  /** Request 2 of client 7 is taken from the first report, and request 1 comes with the second. */
  lemma Overtaken(seen: set<RequestId>)
    requires Mergeable(TheReports(), 1) && (7, 1) !in seen
    ensures !LeftoversFit(seen, 1, TheReports())
  {
    var ds := TheReports();
    assert ds[..1] == [ds[0]] && ds[..1][..0] == [];
    var first := SeenAll(seen, 1, ds[..1]);
    assert SeenAll(seen, 1, ds[..1][..0]) == seen && LeftoverStart(ds[0], 1) == 1 && ds[..1][0] == ds[0];
    assert first == SeenRange(seen, ds[0], 1, 3);
    SeenTwo(seen, 0, 2);
    SeenTwo(first, 1, 1);
  }

  /** What a report of client 7's request `k` adds, and whether it fits. */
  lemma SeenTwo(seen: set<RequestId>, idx: nat, k: nat)
    requires Reported(ReportWith(idx, k))
    ensures var m := ReportWith(idx, k);
            && SeenRange(seen, m, 1, 3) == seen + {(1, 1)} + {(7, k)}
            && (RangeFits(seen, m, 1, 3) ==> (7, k) in seen || Above((7, k), seen))
  {
    var m := ReportWith(idx, k);
    assert At(m, 1) == LogWith(k)[0] && At(m, 2) == LogWith(k)[1];
    assert SeenRange(seen, m, 1, 1) == seen;
    assert SeenRange(seen, m, 1, 2) == seen + {(1, 1)};
  }

  lemma RunIds()
    requires Mergeable(TheReports(), 1) && Count(TheReports(), 1, FirstHash) > 0
    ensures (7, 1) !in Ids(AgreedRunOf())
  {
    var e := AgreedRunOf()[0];
    var m :| m in TheReports() && Votes(m, 1, FirstHash) && FirstWith(TheReports(), 1, FirstHash) == At(m, 1);
    assert Id(e.request) == (1, 1);
  }

  lemma MergeOf(logs: seq<seq<Entry>>, ds: seq<DoViewChange>, run: seq<Entry>) returns (out: seq<Entry>)
    requires ViewChange(ThreeReplicas, logs, 0, 0, 1, ds) && Latest(ds) == ds
    requires AgreedRun(ThreeReplicas, ds, Stage2Start(ds, 1), run) && !LeftoversFit(Ids(Base(ds, 1, run)), 1, ds)
    ensures MergedWith(ThreeReplicas, 1, 1, ds, run, out) && !SpecReplica.Installable(logs[0], out, 0)
  {
    var b := Base(ds, 1, run);
    out := ConsiderAll(Acc(b, Ids(b)), 1, 1, ds).out;
    InstallableExactly(ThreeReplicas, logs, 0, 0, 1, 1, ds, run, out);
  }

  /** The leader merges the two reports and the result violates an assertion of the installation. */
  lemma NotInstallable() returns (run: seq<Entry>, out: seq<Entry>)
    ensures ViewChange(ThreeReplicas, TheLogs(), 0, 0, 1, TheReports()) && Latest(TheReports()) == TheReports()
    ensures MergedWith(ThreeReplicas, 1, 1, TheReports(), run, out)
    ensures !SpecReplica.Installable(TheLogs()[0], out, 0)
  {
    TheViewChange();
    Stages();
    run := AgreedRunOf();
    RunIds();
    assert Base(TheReports(), 1, run) == run;
    Overtaken(Ids(run));
    out := MergeOf(TheLogs(), TheReports(), run);
  }
}

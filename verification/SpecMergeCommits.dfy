/** Which entries of a merged log are committed, and where each of its entries comes from. */
module SpecMergeCommits {
  import opened Numbers
  import opened Quorums
  import opened Logs
  import opened SpecMerge
  import opened SpecMergeShape
  import opened SpecMergeSafety
  import SpecReplica

  /** The report has the entry, with this number, view, request and hash. */
  predicate ReportsEntry(m: DoViewChange, e: Entry) {
    Reported(m) && Has(m, e.opnum) && SameOp(At(m, e.opnum), e) && At(m, e.opnum).hash == e.hash
  }

  // The three stages in the merged log.

  /** What stage 3 appends: a reported request, speculative and in the new view. */
  ghost predicate IsLeftover(ms: seq<DoViewChange>, newView: nat, e: Entry)
    requires AllReported(ms)
  {
    e.state == Speculative && e.view == newView && FromReports(ms, e.request)
  }

  ghost predicate LeftoversFrom(ms: seq<DoViewChange>, newView: nat, a: Acc, b: Acc)
    requires AllReported(ms)
  {
    a.out <= b.out && forall i :: |a.out| <= i < |b.out| ==> IsLeftover(ms, newView, b.out[i])
  }

  lemma {:induction false} RangeLeftovers(ms: seq<DoViewChange>, a: Acc, newView: nat, m: DoViewChange, lo: nat,
                                          hi: nat)
    requires AllReported(ms) && m in ms && forall i :: lo <= i < hi ==> Has(m, i)
    ensures LeftoversFrom(ms, newView, a, ConsiderRange(a, newView, m, lo, hi))
    decreases hi
  {
    if lo < hi {
      RangeLeftovers(ms, a, newView, m, lo, hi - 1);
      assert Has(m, hi - 1) && FromReports(ms, At(m, hi - 1).request);
    }
  }

  lemma {:induction false} AllLeftovers(all: seq<DoViewChange>, a: Acc, newView: nat, maxStart: nat,
                                        ms: seq<DoViewChange>)
    requires AllReported(all) && Mergeable(ms, maxStart) && forall m :: m in ms ==> m in all
    ensures LeftoversFrom(all, newView, a, ConsiderAll(a, newView, maxStart, ms))
    decreases |ms|
  {
    if ms != [] {
      var n := |ms| - 1;
      assert ms[n] in ms;
      AllLeftovers(all, a, newView, maxStart, ms[..n]);
      RangeLeftovers(all, ConsiderAll(a, newView, maxStart, ms[..n]), newView, ms[n],
                     LeftoverStart(ms[n], maxStart), ms[n].lastspeculative + 1);
    }
  }

  /** An operation taken because enough reports share it. */
  ghost predicate IsShared(c: Config, ms: seq<DoViewChange>, e: Entry)
    requires AllReported(ms)
  {
    e.state == Speculative && Supported(c, ms, e.opnum, e.hash) && exists m :: m in ms && ReportsEntry(m, e)
  }

  /** An operation the most committed report has committed. */
  ghost predicate IsCommitted(ms: seq<DoViewChange>, maxStart: nat, e: Entry)
    requires ms != [] && AllReported(ms)
  {
    var mc := MostCommitted(ms);
    e.state == Committed && maxStart <= e.opnum <= mc.lastcommitted && ReportsEntry(mc, e)
  }

  /** Every entry of a merge is a committed one, a shared one or a leftover, and the committed ones come first. */
  lemma EntryOrigin(c: Config, newView: nat, maxStart: nat, ms: seq<DoViewChange>, out: seq<Entry>, i: nat)
    requires ms != [] && Mergeable(ms, maxStart) && IsMerge(c, newView, maxStart, ms, out) && i < |out|
    ensures |Stage1(ms, maxStart)| <= |out|
    ensures if i < |Stage1(ms, maxStart)| then out[i] == Stage1(ms, maxStart)[i] && IsCommitted(ms, maxStart, out[i])
            else IsShared(c, ms, out[i]) || IsLeftover(ms, newView, out[i])
  {
    var run :| MergedWith(c, newView, maxStart, ms, run, out);
    var s, b := Stage1(ms, maxStart), Base(ms, maxStart, run);
    AllLeftovers(ms, Acc(b, Ids(b)), newView, maxStart, ms);
    if i < |s| {
      Stage1Entry(ms, maxStart, i);
      CommittedBelow(ms, maxStart, i);
    } else if i < |b| {
      var m := BaseEntry(c, ms, maxStart, run, i);
      RunSpeculative(c, ms, Stage2Start(ms, maxStart), run, i - |s|);
    }
  }

  lemma CommittedBelow(ms: seq<DoViewChange>, maxStart: nat, i: nat)
    requires ms != [] && Mergeable(ms, maxStart) && i < |Stage1(ms, maxStart)|
    ensures maxStart <= Stage1(ms, maxStart)[i].opnum <= MostCommitted(ms).lastcommitted
  {
    Stage1Entry(ms, maxStart, i);
    Stage1Entry(ms, maxStart, |Stage1(ms, maxStart)| - 1);
  }

  lemma RunSpeculative(c: Config, ms: seq<DoViewChange>, next: nat, run: seq<Entry>, k: nat)
    requires AllReported(ms) && ms != [] && AgreedRun(c, ms, next, run) && k < |run|
    ensures run[k].state == Speculative
  {
    assert AgreedIn(c, ms, next, run, k);
  }

  /** A committed entry of a merge was reported, number and hash, by a latest reporter that has committed it. */
  lemma CommittedWereReported(c: Config, newView: nat, maxStart: nat, ms: seq<DoViewChange>, out: seq<Entry>, e: Entry)
    requires ms != [] && Mergeable(ms, maxStart) && IsMerge(c, newView, maxStart, ms, out)
    requires e in out && e.state == Committed
    ensures exists m :: m in ms && ReportsEntry(m, e) && maxStart <= e.opnum <= m.lastcommitted
  {
    var i :| 0 <= i < |out| && out[i] == e;
    EntryOrigin(c, newView, maxStart, ms, out, i);
  }

  ghost predicate CommittedIn(out: seq<Entry>, op: nat) {
    exists e :: e in out && e.opnum == op && e.state == Committed
  }

  /** An operation is committed in a merge exactly when the most committed report has it committed, from maxStart on. */
  lemma CommittedExactly(c: Config, newView: nat, maxStart: nat, ms: seq<DoViewChange>, out: seq<Entry>, op: nat)
    requires ms != [] && Mergeable(ms, maxStart) && IsMerge(c, newView, maxStart, ms, out)
    ensures CommittedIn(out, op) <==>
              var mc := MostCommitted(ms); Has(mc, op) && maxStart <= op <= mc.lastcommitted
  {
    var mc := MostCommitted(ms);
    if Has(mc, op) && maxStart <= op <= mc.lastcommitted {
      var k := TakenAsCommitted(ms, maxStart, op);
      StageOneStays(c, newView, maxStart, ms, out, k);
    }
    if CommittedIn(out, op) {
      var e :| e in out && e.opnum == op && e.state == Committed;
      var i :| 0 <= i < |out| && out[i] == e;
      EntryOrigin(c, newView, maxStart, ms, out, i);
    }
  }

  lemma StageOneStays(c: Config, newView: nat, maxStart: nat, ms: seq<DoViewChange>, out: seq<Entry>, k: nat)
    requires ms != [] && Mergeable(ms, maxStart) && IsMerge(c, newView, maxStart, ms, out)
    requires k < |Stage1(ms, maxStart)|
    ensures k < |out| && out[k] == Stage1(ms, maxStart)[k] && out[k] in out && out[k].state == Committed
  {
    var run :| MergedWith(c, newView, maxStart, ms, run, out);
    var b := Base(ms, maxStart, run);
    ConsiderAllPrefix(Acc(b, Ids(b)), newView, maxStart, ms);
    Stage1Entry(ms, maxStart, k);
  }

  /** When every report starts by maxStart, whatever a latest reporter has committed from there on is committed. */
  lemma ReportedAreCommitted(c: Config, newView: nat, maxStart: nat, ms: seq<DoViewChange>, out: seq<Entry>,
                             m: DoViewChange, op: nat)
    requires ms != [] && Mergeable(ms, maxStart) && IsMerge(c, newView, maxStart, ms, out)
    requires m in ms && Covers(ms, Max(1, maxStart)) && Max(1, maxStart) <= op <= m.lastcommitted
    ensures CommittedIn(out, op)
  {
    CommittedExactly(c, newView, maxStart, ms, out, op);
  }

  /** Two reports have the same operation where both have committed. */
  lemma CommittedSame(c: Config, logs: seq<seq<Entry>>, ms: seq<DoViewChange>, m: DoViewChange, m': DoViewChange,
                      op: nat)
    requires ValidConfig(c) && ReplicaLogs(c, logs) && Reports(c, logs, ms) && CommittedHeld(c, logs, ms)
    requires m in ms && m' in ms && Reported(m) && Reported(m') && Has(m, op) && Has(m', op)
    requires 1 <= op <= m.lastcommitted && op <= m'.lastcommitted
    ensures At(m, op).hash == At(m', op).hash
  {
    CommitsAgree(c, logs, m.replicaidx, m.lastcommitted, m'.replicaidx, m'.lastcommitted, op);
  }

  /** And it is the same operation, since what is reported committed is on a fast quorum. */
  lemma CommittedStay(c: Config, logs: seq<seq<Entry>>, newView: nat, maxStart: nat, ms: seq<DoViewChange>,
                      out: seq<Entry>, m: DoViewChange, op: nat)
    requires ValidConfig(c) && ReplicaLogs(c, logs) && ms != [] && Mergeable(ms, maxStart)
    requires Reports(c, logs, ms) && CommittedHeld(c, logs, ms) && IsMerge(c, newView, maxStart, ms, out)
    requires m in ms && Covers(ms, Max(1, maxStart)) && Max(1, maxStart) <= op <= m.lastcommitted
    ensures Has(m, op) && exists e :: e in out && e.opnum == op && e.state == Committed && e.hash == At(m, op).hash
  {
    var k := TakenAsCommitted(ms, maxStart, op);
    StageOneStays(c, newView, maxStart, ms, out, k);
    CommittedSame(c, logs, ms, m, MostCommitted(ms), op);
  }

  // The commit point of the merged log.

  lemma {:induction false} LastCommittedAt(out: seq<Entry>, n: nat)
    requires n <= |out| && forall i :: 0 <= i < |out| ==> (i < n <==> out[i].state == Committed)
    requires forall i :: n <= i < |out| ==> out[i].state == Speculative
    ensures SpecReplica.LastCommittedIn(out) == if n == 0 then 0 else out[n - 1].opnum
    decreases |out|
  {
    if n < |out| {
      LastCommittedAt(out[..|out| - 1], n);
    }
  }

  /** The merged log is committed up to the highest commit point of a latest report, if that is not before maxStart. */
  lemma CommitPointOfMerge(c: Config, newView: nat, maxStart: nat, ms: seq<DoViewChange>, out: seq<Entry>)
    requires ms != [] && Mergeable(ms, maxStart) && IsMerge(c, newView, maxStart, ms, out)
    ensures var n := MostCommitted(ms).lastcommitted;
            SpecReplica.LastCommittedIn(out) == if maxStart <= n then n else 0
  {
    var s, mc := Stage1(ms, maxStart), MostCommitted(ms);
    StatesOf(c, newView, maxStart, ms, out);
    LastCommittedAt(out, |s|);
    if s != [] {
      CommittedBelow(ms, maxStart, |s| - 1);
      Stage1Entry(ms, maxStart, |s| - 1);
      StageOneStays(c, newView, maxStart, ms, out, |s| - 1);
    } else {
      CommittedSlice(mc.entries, maxStart, mc.lastcommitted);
      assert LongEnough(mc, maxStart);
    }
  }

  lemma StatesOf(c: Config, newView: nat, maxStart: nat, ms: seq<DoViewChange>, out: seq<Entry>)
    requires ms != [] && Mergeable(ms, maxStart) && IsMerge(c, newView, maxStart, ms, out)
    ensures |Stage1(ms, maxStart)| <= |out|
    ensures forall i :: 0 <= i < |out| ==>
              out[i].state == if i < |Stage1(ms, maxStart)| then Committed else Speculative
  {
    forall i | 0 <= i < |out|
      ensures out[i].state == if i < |Stage1(ms, maxStart)| then Committed else Speculative
    {
      EntryOrigin(c, newView, maxStart, ms, out, i);
    }
    if Stage1(ms, maxStart) != [] {
      StageOneStays(c, newView, maxStart, ms, out, |Stage1(ms, maxStart)| - 1);
    }
  }

  /** So the highest reported commit point is taken over exactly when it is not before maxStart or is 0. */
  lemma CommitPointTaken(c: Config, newView: nat, maxStart: nat, ms: seq<DoViewChange>, out: seq<Entry>)
    requires ms != [] && Mergeable(ms, maxStart) && IsMerge(c, newView, maxStart, ms, out)
    ensures var n := MostCommitted(ms).lastcommitted;
            SpecReplica.LastCommittedIn(out) == n <==> maxStart <= n || n == 0
  {
    CommitPointOfMerge(c, newView, maxStart, ms, out);
  }

  /** A report of a log of two operations, the first committed, that starts at the second. */
  function LateReport(idx: nat): (m: DoViewChange)
    ensures Reported(m) && LongEnough(m, 2) && m.lastcommitted == 1
  {
    var r := Request(1, 2, "");
    var h := ComputeHash(ComputeHash(EmptyHash, Request(1, 1, "")), r);
    DoViewChange(idx, 0, 2, 1, [Entry(0, 2, Speculative, r, h, 0)])
  }

  /** Reports that start after the commit point they name: no merge of them has anything committed. */
  lemma CommitBeforeStart(c: Config, newView: nat, out: seq<Entry>)
    requires var ms := [LateReport(0), LateReport(1)]; Mergeable(ms, 2) && IsMerge(c, newView, 2, ms, out)
    ensures SpecReplica.LastCommittedIn(out) == 0 && MostCommitted([LateReport(0), LateReport(1)]).lastcommitted == 1
  {
    var ms := [LateReport(0), LateReport(1)];
    CommitPointOfMerge(c, newView, 2, ms, out);
    assert MostCommitted(ms) in ms;
  }
}

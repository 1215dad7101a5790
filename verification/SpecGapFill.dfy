/**
 * Reconciliation after gap filling. When the reports do not reach back to a common operation, the new leader asks
 * for longer ones and then merges all they hold. The merged log still continues the leader's, with everything a
 * fast quorum held in its place. But a reporter that lags behind may hand in, as leftovers, operations the leader
 * has before the merged log starts: they are then appended, and executed, again.
 */
module SpecGapFill {
  import opened Numbers
  import opened Quorums
  import opened Logs
  import opened ClientTables
  import opened SpecMerge
  import opened SpecMergeCommits
  import opened SpecMergeShape
  import opened SpecMergeSafety
  import opened SpecClientOrder
  import opened SpecReconciliation
  import SpecReplica

  // Logs in which no number falls below its client's newest.

  predicate AtLeast(id: RequestId, ids: set<RequestId>) {
    forall x :: x in ids && x.0 == id.0 ==> x.1 <= id.1
  }

  /** In the log that a hash stands for, no client's request numbers fall. */
  predicate NotFalling(h: Hash) {
    h.Link? ==> NotFalling(h.prev) && AtLeast(h.id, History(h.prev))
  }

  lemma {:induction false} InOrderNotFalling(h: Hash)
    requires InOrder(h)
    ensures NotFalling(h)
    decreases h
  {
    if h.Link? {
      InOrderNotFalling(h.prev);
    }
  }

  lemma {:induction false} NotFallingBefore(log: seq<Entry>, p: nat, i: nat)
    requires Chained(EmptyHash, log) && p <= i < |log| && NotFalling(log[i].hash)
    ensures NotFalling(log[p].hash)
    decreases i
  {
    assert ChainedAt(EmptyHash, log, i);
    if p < i {
      NotFallingBefore(log, p, i - 1);
    }
  }

  lemma {:induction false} NewestIsHighest(log: seq<Entry>, n: nat, p: nat)
    requires Accepted(log) && p < n <= |log|
    ensures Get(Replay(log[..n]), log[p].request.clientid).lastReqId >= log[p].request.clientreqid
    decreases n
  {
    assert log[..n][..n - 1] == log[..n - 1];
    assert AcceptedAt(log, n - 1);
    if p < n - 1 {
      NewestIsHighest(log, n - 1, p);
    }
  }

  lemma {:induction false} AcceptedNotFalling(log: seq<Entry>, i: nat)
    requires Chained(EmptyHash, log) && Accepted(log) && i < |log|
    ensures NotFalling(log[i].hash)
    decreases i
  {
    assert ChainedAt(EmptyHash, log, i) && AcceptedAt(log, i);
    if i > 0 {
      AcceptedNotFalling(log, i - 1);
      forall x | x in History(log[i - 1].hash) && x.0 == log[i].request.clientid
        ensures x.1 <= log[i].request.clientreqid
      {
        var p := HistoryInLog(log, i - 1, x);
        NewestIsHighest(log, i, p);
      }
    }
  }

  /** A log passes the check of its numbers exactly when its last hash has none falling. */
  lemma AcceptedByHash(log: seq<Entry>)
    requires Numbered(log, 1) && Chained(EmptyHash, log) && log != []
    ensures Accepted(log) <==> NotFalling(log[|log| - 1].hash)
  {
    if Accepted(log) {
      AcceptedNotFalling(log, |log| - 1);
    }
    if NotFalling(log[|log| - 1].hash) {
      forall i | 0 <= i < |log|
        ensures AcceptedAt(log, i)
      {
        NotFallingBefore(log, i, |log| - 1);
        assert ChainedAt(EmptyHash, log, i);
        var known := Get(Replay(log[..i]), log[i].request.clientid);
        ReplayInLog(log[..i], log[i].request.clientid);
        if known.lastReqOpnum > 0 {
          EntryInHistory(log, known.lastReqOpnum - 1, i - 1);
        }
      }
    }
  }

  // Following the leftovers, on top of a log with the requests `pre`.

  ghost predicate Over(pre: set<RequestId>, a: Acc) {
    History(LastHash(a)) == pre + a.seen
  }

  predicate RangeAccepted(pre: set<RequestId>, seen: set<RequestId>, m: DoViewChange, lo: nat, hi: nat)
    requires Reported(m) && forall i :: lo <= i < hi ==> Has(m, i)
    decreases hi
  {
    lo < hi ==>
      && RangeAccepted(pre, seen, m, lo, hi - 1)
      && var id, before := Id(At(m, hi - 1).request), SeenRange(seen, m, lo, hi - 1);
         id in before || AtLeast(id, pre + before)
  }

  /** No leftover that is appended falls below its client's newest number. */
  predicate LeftoversAccepted(pre: set<RequestId>, seen: set<RequestId>, maxStart: nat, ms: seq<DoViewChange>)
    requires Mergeable(ms, maxStart)
  {
    ms != [] ==>
      var n := |ms| - 1;
      && LeftoversAccepted(pre, seen, maxStart, ms[..n])
      && RangeAccepted(pre, SeenAll(seen, maxStart, ms[..n]), ms[n], LeftoverStart(ms[n], maxStart),
                       ms[n].lastspeculative + 1)
  }

  /** No leftover that is appended is in the log already. */
  predicate LeftoversNew(pre: set<RequestId>, seen: set<RequestId>, maxStart: nat, ms: seq<DoViewChange>)
    requires Mergeable(ms, maxStart)
  {
    (SeenAll(seen, maxStart, ms) - seen) !! pre
  }

  /** How far the merge has come without a repetition. */
  ghost predicate RepeatsTold(pre: set<RequestId>, seen: set<RequestId>, a: Acc) {
    seen <= a.seen && (NoRepeats(LastHash(a)) <==> (a.seen - seen) !! pre)
  }

  lemma StepAccepted(pre: set<RequestId>, seen: set<RequestId>, a: Acc, newView: nat, e: Entry)
    requires Over(pre, a) && RepeatsTold(pre, seen, a)
    ensures var a', id := Consider(a, newView, e), Id(e.request);
            && Over(pre, a') && RepeatsTold(pre, seen, a') && a'.seen == a.seen + {id}
            && (NotFalling(LastHash(a')) <==>
                  NotFalling(LastHash(a)) && (id in a.seen || AtLeast(id, pre + a.seen)))
  {
    var a', id := Consider(a, newView, e), Id(e.request);
    if id in a.seen {
      assert a.seen + {id} == a.seen;
    } else {
      assert LastHash(a') == Link(LastHash(a), id);
      assert a'.seen - seen == (a.seen - seen) + {id};
    }
  }

  lemma RangeSplits(pre: set<RequestId>, seen: set<RequestId>, m: DoViewChange, lo: nat, hi: nat)
    requires Reported(m) && lo < hi && forall i :: lo <= i < hi ==> Has(m, i)
    ensures var id, before := Id(At(m, hi - 1).request), SeenRange(seen, m, lo, hi - 1);
            && SeenRange(seen, m, lo, hi) == before + {id}
            && (RangeAccepted(pre, seen, m, lo, hi) <==>
                  RangeAccepted(pre, seen, m, lo, hi - 1) && (id in before || AtLeast(id, pre + before)))
  {
  }

  lemma {:induction false} RangeAccepts(pre: set<RequestId>, seen: set<RequestId>, a: Acc, newView: nat,
                                        m: DoViewChange, lo: nat, hi: nat)
    requires Over(pre, a) && RepeatsTold(pre, seen, a) && Reported(m) && forall i :: lo <= i < hi ==> Has(m, i)
    ensures var a' := ConsiderRange(a, newView, m, lo, hi);
            && Over(pre, a') && RepeatsTold(pre, seen, a') && a'.seen == SeenRange(a.seen, m, lo, hi)
            && (NotFalling(LastHash(a')) <==> NotFalling(LastHash(a)) && RangeAccepted(pre, a.seen, m, lo, hi))
    decreases hi
  {
    if lo < hi {
      RangeAccepts(pre, seen, a, newView, m, lo, hi - 1);
      var mid := ConsiderRange(a, newView, m, lo, hi - 1);
      StepAccepted(pre, seen, mid, newView, At(m, hi - 1));
      RangeSplits(pre, a.seen, m, lo, hi);
    }
  }

  lemma {:induction false} AllAccepts(pre: set<RequestId>, seen: set<RequestId>, a: Acc, newView: nat, maxStart: nat,
                                      ms: seq<DoViewChange>)
    requires Over(pre, a) && RepeatsTold(pre, seen, a) && Mergeable(ms, maxStart)
    ensures var a' := ConsiderAll(a, newView, maxStart, ms);
            && Over(pre, a') && RepeatsTold(pre, seen, a') && a'.seen == SeenAll(a.seen, maxStart, ms)
            && (NotFalling(LastHash(a')) <==>
                  NotFalling(LastHash(a)) && LeftoversAccepted(pre, a.seen, maxStart, ms))
    decreases |ms|
  {
    if ms != [] {
      var n := |ms| - 1;
      assert ms[n] in ms;
      AllAccepts(pre, seen, a, newView, maxStart, ms[..n]);
      RangeAccepts(pre, seen, ConsiderAll(a, newView, maxStart, ms[..n]), newView, ms[n],
                   LeftoverStart(ms[n], maxStart), ms[n].lastspeculative + 1);
    }
  }

  /** What the leftovers do to the merge depends on what precedes it, `at`, and on what it starts with. */
  lemma LeftoversDecide(c: Config, newView: nat, maxStart: nat, ms: seq<DoViewChange>, run: seq<Entry>, out: seq<Entry>,
                        at: Hash)
    requires ms != [] && Mergeable(ms, maxStart) && Decisive(c, ms) && CommittedSupported(c, ms, maxStart)
    requires MergedWith(c, newView, maxStart, ms, run, out) && forall m :: m in ms ==> ReportInOrder(m)
    requires if Base(ms, maxStart, run) == [] then at == EmptyHash else out != [] && ExtendsHash(at, out[0])
    ensures var seen, last := Ids(Base(ms, maxStart, run)), HashUpTo(EmptyHash, out, |out|);
            && (NotFalling(last) <==> LeftoversAccepted(History(at), seen, maxStart, ms))
            && (NoRepeats(last) <==> LeftoversNew(History(at), seen, maxStart, ms))
  {
    var b := Base(ms, maxStart, run);
    var a := Acc(b, Ids(b));
    ConsiderAllPrefix(a, newView, maxStart, ms);
    if b != [] {
      BaseHistoryOver(c, ms, maxStart, run, at);
    }
    assert a.seen - Ids(b) == {};
    AllAccepts(History(at), Ids(b), a, newView, maxStart, ms);
  }

  /** The merge starts with a stretch of a log in order. */
  lemma BaseHistoryOver(c: Config, ms: seq<DoViewChange>, maxStart: nat, run: seq<Entry>, at: Hash)
    requires ms != [] && Mergeable(ms, maxStart) && Decisive(c, ms) && CommittedSupported(c, ms, maxStart)
    requires AgreedRun(c, ms, Stage2Start(ms, maxStart), run) && forall m :: m in ms ==> ReportInOrder(m)
    requires var b := Base(ms, maxStart, run); b != [] && ExtendsHash(at, b[0])
    ensures var b := Base(ms, maxStart, run); var a := Acc(b, Ids(b));
            Over(History(at), a) && NoRepeats(LastHash(a)) && NotFalling(LastHash(a))
  {
    var b := Base(ms, maxStart, run);
    var n := |b| - 1;
    BaseLinked(c, ms, maxStart, run);
    HistoryOver(b, at);
    var m := BaseEntry(c, ms, maxStart, run, n);
    assert At(m, b[n].opnum) in m.entries;
    InOrderNoRepeats(b[n].hash);
    InOrderNotFalling(b[n].hash);
  }

  lemma HistoryOver(b: seq<Entry>, at: Hash)
    requires b != [] && Linked(b) && ExtendsHash(at, b[0])
    ensures Over(History(at), Acc(b, Ids(b)))
  {
    LinkedHistory(b, |b| - 1);
    assert b[..|b|] == b && b[0] in b;
  }

  // The merge after gap filling.

  /**
   * What the leader now asks of a report: all of the log, while the leader has committed nothing, or else back to
   * both commit points.
   */
  predicate ReportFilled(m: DoViewChange, committed: nat) {
    m.entries != [] ==>
      var first := m.entries[0].opnum;
      (committed == 0 && first == 1) || (first <= committed && first <= m.lastcommitted)
  }

  /** As for the first merge, with this check in place of the common operation. */
  ghost predicate FilledChange(c: Config, logs: seq<seq<Entry>>, leader: nat, committed: nat, dvcs: seq<DoViewChange>) {
    && ValidConfig(c) && ReplicaLogs(c, logs) && leader < c.n
    && |dvcs| >= QuorumSize(c) && dvcs != [] && Decisive(c, Latest(dvcs))
    && Reports(c, logs, dvcs) && CommittedHeld(c, logs, dvcs) && HoldersLatest(c, logs, dvcs)
    && committed <= |logs[leader]|
    && (committed > 0 ==> FastHeld(c, logs, committed, logs[leader][committed - 1].hash))
    && (forall m :: m in dvcs ==> ReportFilled(m, committed))
    && (forall r :: 0 <= r < |logs| ==> ClientTables.Increasing(logs[r]))
  }

  ghost predicate AllFilled(ms: seq<DoViewChange>, committed: nat) {
    forall m :: m in ms ==> Reported(m) && ReportFilled(m, committed)
  }

  /** Such reports are long enough to be merged from the start. */
  lemma FilledMergeable(ms: seq<DoViewChange>, committed: nat)
    requires AllFilled(ms, committed)
    ensures Mergeable(ms, 0)
  {
  }

  /** What is known of the latest reports. */
  ghost predicate Filled(c: Config, logs: seq<seq<Entry>>, leader: nat, committed: nat, ms: seq<DoViewChange>) {
    && ValidConfig(c) && ReplicaLogs(c, logs) && leader < c.n && committed <= |logs[leader]|
    && (committed > 0 ==> FastHeld(c, logs, committed, logs[leader][committed - 1].hash))
    && ms != [] && Mergeable(ms, 0) && AllFilled(ms, committed) && Reports(c, logs, ms) && CommittedHeld(c, logs, ms)
  }

  lemma LatestFilled(c: Config, logs: seq<seq<Entry>>, leader: nat, committed: nat, dvcs: seq<DoViewChange>)
    requires FilledChange(c, logs, leader, committed, dvcs)
    ensures Filled(c, logs, leader, committed, Latest(dvcs)) && forall m :: m in Latest(dvcs) ==> ReportInOrder(m)
  {
    var ms := Latest(dvcs);
    LatestReports(c, logs, dvcs);
    FilledMergeable(ms, committed);
    forall m | m in ms
      ensures ReportInOrder(m)
    {
      ReportOrdered(m, logs[m.replicaidx]);
    }
  }

  /** From the newest reported commit on, every report has an entry as far as it goes. */
  lemma FilledCovers(ms: seq<DoViewChange>, committed: nat, op: nat)
    requires ms != [] && AllFilled(ms, committed) && op >= 1 && op >= MostCommitted(ms).lastcommitted
    ensures Covers(ms, op)
  {
  }

  lemma NewestCovered(ms: seq<DoViewChange>, committed: nat)
    requires ms != [] && AllFilled(ms, committed) && Mergeable(ms, 0) && Stage1(ms, 0) != []
    ensures Covers(ms, MostCommitted(ms).lastcommitted)
  {
    LastTaken(ms, 0, Stage1(ms, 0)[|Stage1(ms, 0)| - 1]);
    FilledCovers(ms, committed, MostCommitted(ms).lastcommitted);
  }

  lemma FilledSupported(c: Config, logs: seq<seq<Entry>>, leader: nat, committed: nat, dvcs: seq<DoViewChange>,
                        ms: seq<DoViewChange>)
    requires Filled(c, logs, leader, committed, ms) && ms == Latest(dvcs) && HoldersLatest(c, logs, dvcs)
    ensures CommittedSupported(c, ms, 0)
  {
    if Stage1(ms, 0) != [] {
      NewestCovered(ms, committed);
    }
    CommitsSupported(c, logs, 0, dvcs, ms);
  }

  lemma CommittedStart(ms: seq<DoViewChange>, committed: nat)
    requires ms != [] && AllFilled(ms, committed) && Mergeable(ms, 0) && Stage1(ms, 0) != []
    ensures var mc, e := MostCommitted(ms), Stage1(ms, 0)[0];
            && mc in ms && Votes(mc, e.opnum, e.hash) && 1 <= e.opnum <= mc.lastcommitted
            && (e.opnum == 1 || e.opnum <= committed)
  {
    var mc := MostCommitted(ms);
    Stage1Entry(ms, 0, 0);
    Stage1Entry(ms, 0, |Stage1(ms, 0)| - 1);
    assert ReportFilled(mc, committed) && Reported(mc);
  }

  lemma StartsAtOne(c: Config, newView: nat, ms: seq<DoViewChange>, run: seq<Entry>, out: seq<Entry>)
    requires ms != [] && Mergeable(ms, 0) && MergedWith(c, newView, 0, ms, run, out)
    requires Stage1(ms, 0) == [] && out != []
    ensures out[0].opnum == 1
  {
    var b := Base(ms, 0, run);
    if b != [] {
      var v := RunEntry(c, ms, 1, run, 1, run[0]);
    }
    ConsiderAllFirst(Acc(b, Ids(b)), newView, 0, ms);
  }

  lemma LeaderHasStart(c: Config, logs: seq<seq<Entry>>, leader: nat, committed: nat, ms: seq<DoViewChange>,
                       m: DoViewChange, e: Entry)
    requires Filled(c, logs, leader, committed, ms) && m in ms && Votes(m, e.opnum, e.hash)
    requires 1 <= e.opnum <= m.lastcommitted && e.opnum <= committed
    ensures e.hash == logs[leader][e.opnum - 1].hash
  {
    CommitsAgree(c, logs, leader, committed, m.replicaidx, m.lastcommitted, e.opnum);
  }

  lemma FirstOfMerge(c: Config, newView: nat, ms: seq<DoViewChange>, run: seq<Entry>, out: seq<Entry>)
    requires ms != [] && Mergeable(ms, 0) && MergedWith(c, newView, 0, ms, run, out) && out != []
    ensures if Stage1(ms, 0) == [] then out[0].opnum == 1 else out[0] == Stage1(ms, 0)[0]
  {
    if Stage1(ms, 0) == [] {
      StartsAtOne(c, newView, ms, run, out);
    } else {
      Stage1Kept(c, newView, ms, run, out);
    }
  }

  lemma FirstKnown(c: Config, logs: seq<seq<Entry>>, leader: nat, committed: nat, ms: seq<DoViewChange>, e: Entry)
    requires Filled(c, logs, leader, committed, ms)
    requires if Stage1(ms, 0) == [] then e.opnum == 1 else e == Stage1(ms, 0)[0]
    ensures e.opnum == 1 || (1 <= e.opnum <= committed && e.hash == logs[leader][e.opnum - 1].hash)
  {
    if Stage1(ms, 0) != [] {
      CommittedStart(ms, committed);
      if e.opnum > 1 {
        LeaderHasStart(c, logs, leader, committed, ms, MostCommitted(ms), e);
      }
    }
  }

  /** The merge starts at operation 1, or at a committed one that the leader has committed too. */
  lemma FilledStart(c: Config, logs: seq<seq<Entry>>, leader: nat, committed: nat, newView: nat,
                    ms: seq<DoViewChange>, run: seq<Entry>, out: seq<Entry>)
    requires Filled(c, logs, leader, committed, ms) && MergedWith(c, newView, 0, ms, run, out) && out != []
    ensures out[0].opnum == 1 || (1 <= out[0].opnum <= committed && out[0].hash == logs[leader][out[0].opnum - 1].hash)
  {
    FirstOfMerge(c, newView, ms, run, out);
    FirstKnown(c, logs, leader, committed, ms, out[0]);
  }

  /** What stands at operation 1 of a report follows the empty log. */
  lemma FirstExtendsEmpty(c: Config, logs: seq<seq<Entry>>, ms: seq<DoViewChange>, m: DoViewChange, e: Entry)
    requires ReplicaLogs(c, logs) && Reports(c, logs, ms) && m in ms && e.opnum == 1 && Votes(m, 1, e.hash)
    requires e.request == At(m, 1).request
    ensures ExtendsHash(EmptyHash, e)
  {
    assert ChainedAt(EmptyHash, logs[m.replicaidx], 0);
  }

  lemma FilledFirst(c: Config, logs: seq<seq<Entry>>, newView: nat, ms: seq<DoViewChange>, run: seq<Entry>,
                    out: seq<Entry>)
    requires ReplicaLogs(c, logs) && Reports(c, logs, ms) && ms != [] && Mergeable(ms, 0)
    requires MergedWith(c, newView, 0, ms, run, out) && out != [] && out[0].opnum == 1
    ensures ExtendsHash(EmptyHash, out[0])
  {
    var b := Base(ms, 0, run);
    ConsiderAllPrefix(Acc(b, Ids(b)), newView, 0, ms);
    if b != [] {
      var m := BaseEntry(c, ms, 0, run, 0);
      FirstExtendsEmpty(c, logs, ms, m, b[0]);
    } else {
      ConsiderAllEmpty(newView, ms);
    }
  }

  lemma {:induction false} ConsiderRangeEmpty(a: Acc, newView: nat, m: DoViewChange, lo: nat, hi: nat)
    requires Reported(m) && forall i :: lo <= i < hi ==> Has(m, i)
    requires a.out != [] ==> ExtendsHash(EmptyHash, a.out[0])
    ensures var out := ConsiderRange(a, newView, m, lo, hi).out; out != [] ==> ExtendsHash(EmptyHash, out[0])
    decreases hi
  {
    if lo < hi {
      ConsiderRangeEmpty(a, newView, m, lo, hi - 1);
    }
  }

  lemma {:induction false} ConsiderAllEmpty(newView: nat, ms: seq<DoViewChange>)
    requires Mergeable(ms, 0)
    ensures var out := ConsiderAll(Acc([], Ids([])), newView, 0, ms).out; out != [] ==> ExtendsHash(EmptyHash, out[0])
  {
    if ms != [] {
      var n := |ms| - 1;
      ConsiderAllEmpty(newView, ms[..n]);
      ConsiderRangeEmpty(ConsiderAll(Acc([], Ids([])), newView, 0, ms[..n]), newView, ms[n],
                         LeftoverStart(ms[n], 0), ms[n].lastspeculative + 1);
    }
  }

  /** The merged log continues the leader's. */
  lemma FilledGrafts(c: Config, logs: seq<seq<Entry>>, leader: nat, committed: nat, newView: nat,
                     dvcs: seq<DoViewChange>, run: seq<Entry>, out: seq<Entry>)
    requires FilledChange(c, logs, leader, committed, dvcs) && Mergeable(Latest(dvcs), 0)
    requires MergedWith(c, newView, 0, Latest(dvcs), run, out)
    ensures SpecReplica.Grafts(logs[leader], out)
  {
    LatestFilled(c, logs, leader, committed, dvcs);
    FilledSupported(c, logs, leader, committed, dvcs, Latest(dvcs));
    var ms, es := Latest(dvcs), logs[leader];
    NoDuplicatesInOrder(ms);
    MergeShape(c, newView, 0, ms, out);
    if out != [] {
      FilledStart(c, logs, leader, committed, newView, ms, run, out);
      if out[0].opnum == 1 {
        FilledFirst(c, logs, newView, ms, run, out);
      } else {
        FilledLater(c, newView, ms, run, out, es);
      }
    }
  }

  lemma NoDuplicatesInOrder(ms: seq<DoViewChange>)
    requires forall m :: m in ms ==> ReportInOrder(m)
    ensures NoDuplicates(ms)
  {
    forall m, e | m in ms && e in m.entries
      ensures NoRepeats(e.hash)
    {
      InOrderNoRepeats(e.hash);
    }
  }

  lemma FilledLater(c: Config, newView: nat, ms: seq<DoViewChange>, run: seq<Entry>, out: seq<Entry>, es: seq<Entry>)
    requires ms != [] && Mergeable(ms, 0) && MergedWith(c, newView, 0, ms, run, out) && out != []
    requires CompleteLog(es) && 1 < out[0].opnum <= |es| && out[0].hash == es[out[0].opnum - 1].hash
    ensures ExtendsHash(HashUpTo(EmptyHash, es, out[0].opnum - 1), out[0])
  {
    var b, s := Base(ms, 0, run), out[0].opnum;
    if b == [] {
      ConsiderAllFirst(Acc(b, Ids(b)), newView, 0, ms);
    }
    ConsiderAllPrefix(Acc(b, Ids(b)), newView, 0, ms);
    var m := BaseEntry(c, ms, 0, run, 0);
    assert ChainedAt(EmptyHash, es, s - 1);
  }

  /** What a fast quorum holds is in the log the merge aims for, in its place. */
  lemma FilledHolds(c: Config, logs: seq<seq<Entry>>, leader: nat, committed: nat, newView: nat,
                    dvcs: seq<DoViewChange>, run: seq<Entry>, out: seq<Entry>, op: nat, h: Hash)
    requires FilledChange(c, logs, leader, committed, dvcs) && Mergeable(Latest(dvcs), 0)
    requires MergedWith(c, newView, 0, Latest(dvcs), run, out) && SpecReplica.Grafts(logs[leader], out)
    requires op >= 1 && FastHeld(c, logs, op, h)
    ensures out != [] && Holds(SpecReplica.Target(logs[leader], out), op, h)
  {
    LatestFilled(c, logs, leader, committed, dvcs);
    var ms := Latest(dvcs);
    var mc := MostCommitted(ms);
    if op >= mc.lastcommitted {
      assert HeldReported(c, logs, dvcs, op, h);
      FilledCovers(ms, committed, op);
      FilledMergeable(dvcs, committed);
      MergeSafety(c, logs, newView, 0, dvcs, out, op, h);
      TargetHolds(logs[leader], out, op, h);
    } else {
      FilledHoldsCommitted(c, logs, leader, committed, newView, ms, run, out, op, h);
    }
  }

  lemma FilledHoldsCommitted(c: Config, logs: seq<seq<Entry>>, leader: nat, committed: nat, newView: nat,
                             ms: seq<DoViewChange>, run: seq<Entry>, out: seq<Entry>, op: nat, h: Hash)
    requires Filled(c, logs, leader, committed, ms)
    requires MergedWith(c, newView, 0, ms, run, out) && SpecReplica.Grafts(logs[leader], out)
    requires 1 <= op < MostCommitted(ms).lastcommitted && FastHeld(c, logs, op, h)
    ensures out != [] && Holds(SpecReplica.Target(logs[leader], out), op, h)
  {
    var mc, s := MostCommitted(ms), Stage1(ms, 0);
    ReporterHolds(c, logs, ms, mc, op, h);
    CommitIsTaken(ms);
    CommittedStart(ms, committed);
    Stage1Kept(c, newView, ms, run, out);
    if op >= s[0].opnum {
      TakenHolds(c, logs, ms, out, logs[leader], op, h);
    } else {
      HeldBelowCommit(c, logs, leader, committed, op, h);
      KeptHolds(logs[leader], out, op, h);
    }
  }

  lemma ReporterHolds(c: Config, logs: seq<seq<Entry>>, ms: seq<DoViewChange>, m: DoViewChange, op: nat, h: Hash)
    requires ValidConfig(c) && ReplicaLogs(c, logs) && Reports(c, logs, ms) && CommittedHeld(c, logs, ms) && m in ms
    requires 1 <= op <= m.lastcommitted && FastHeld(c, logs, op, h)
    ensures Holds(logs[m.replicaidx], op, h)
  {
    HeldBelowCommit(c, logs, m.replicaidx, m.lastcommitted, op, h);
  }

  lemma KeptHolds(es: seq<Entry>, out: seq<Entry>, op: nat, h: Hash)
    requires SpecReplica.Grafts(es, out) && out != [] && op < out[0].opnum && Holds(es, op, h)
    ensures Holds(SpecReplica.Target(es, out), op, h)
  {
  }

  lemma Stage1Kept(c: Config, newView: nat, ms: seq<DoViewChange>, run: seq<Entry>, out: seq<Entry>)
    requires ms != [] && Mergeable(ms, 0) && MergedWith(c, newView, 0, ms, run, out)
    ensures Stage1(ms, 0) <= out
  {
    ConsiderAllPrefix(Acc(Base(ms, 0, run), Ids(Base(ms, 0, run))), newView, 0, ms);
  }

  lemma CommitIsTaken(ms: seq<DoViewChange>)
    requires ms != [] && Mergeable(ms, 0) && MostCommitted(ms).lastcommitted > 0
    ensures Stage1(ms, 0) != []
  {
    var mc := MostCommitted(ms);
    var k := TakenAsCommitted(ms, 0, mc.lastcommitted);
  }

  lemma TakenHolds(c: Config, logs: seq<seq<Entry>>, ms: seq<DoViewChange>, out: seq<Entry>, es: seq<Entry>,
                   op: nat, h: Hash)
    requires |logs| == c.n && Reports(c, logs, ms) && ms != [] && Mergeable(ms, 0)
    requires var s := Stage1(ms, 0); s != [] && s <= out && s[0].opnum <= op <= MostCommitted(ms).lastcommitted
    requires Holds(logs[MostCommitted(ms).replicaidx], op, h) && SpecReplica.Grafts(es, out)
    ensures Holds(SpecReplica.Target(es, out), op, h)
  {
    Stage1Entry(ms, 0, 0);
    var k := TakenAsCommitted(ms, 0, op);
    assert out[k] in out;
    TargetHolds(es, out, op, h);
  }

  /** The hash of the part of the log that the merged entries leave in place. */
  function HashBefore(es: seq<Entry>, out: seq<Entry>): Hash
    requires SpecReplica.Grafts(es, out)
  {
    if out == [] then EmptyHash else HashUpTo(EmptyHash, es, out[0].opnum - 1)
  }

  /**
   * Exactly when the code's assertions hold for the merged log: no leftover falls below its client's newest number,
   * whether that is in the leader's log before the start or in the merge.
   */
  lemma FilledInstallableExactly(c: Config, logs: seq<seq<Entry>>, leader: nat, committed: nat, newView: nat,
                                 dvcs: seq<DoViewChange>, run: seq<Entry>, out: seq<Entry>)
    requires FilledChange(c, logs, leader, committed, dvcs) && Mergeable(Latest(dvcs), 0)
    requires MergedWith(c, newView, 0, Latest(dvcs), run, out)
    ensures SpecReplica.Grafts(logs[leader], out)
    ensures var pre := History(HashBefore(logs[leader], out));
            SpecReplica.Installable(logs[leader], out, committed) <==>
              LeftoversAccepted(pre, Ids(Base(Latest(dvcs), 0, run)), 0, Latest(dvcs))
  {
    FilledGrafts(c, logs, leader, committed, newView, dvcs, run, out);
    FilledDecide(c, logs, leader, committed, newView, dvcs, run, out);
    FilledAgrees(c, logs, leader, committed, newView, dvcs, run, out);
    TargetByHash(logs[leader], out);
  }

  /** The log aimed for ends in the last hash of the merged entries, which tells both. */
  lemma TargetByHash(es: seq<Entry>, out: seq<Entry>)
    requires CompleteLog(es) && SpecReplica.Grafts(es, out)
    ensures var t, last := SpecReplica.Target(es, out), HashUpTo(EmptyHash, out, |out|);
            (Accepted(t) <==> NotFalling(last)) && (DistinctIds(t) <==> NoRepeats(last))
  {
    if out != [] {
      SpecReplica.TargetChained(es, out);
      AcceptedByHash(SpecReplica.Target(es, out));
      DistinctByHash(SpecReplica.Target(es, out));
    }
  }

  lemma FilledAgrees(c: Config, logs: seq<seq<Entry>>, leader: nat, committed: nat, newView: nat,
                     dvcs: seq<DoViewChange>, run: seq<Entry>, out: seq<Entry>)
    requires FilledChange(c, logs, leader, committed, dvcs) && Mergeable(Latest(dvcs), 0)
    requires MergedWith(c, newView, 0, Latest(dvcs), run, out) && SpecReplica.Grafts(logs[leader], out)
    ensures SpecReplica.AgreesWithCommitted(logs[leader], out, committed)
    ensures SpecReplica.Installable(logs[leader], out, committed) <==> Accepted(SpecReplica.Target(logs[leader], out))
  {
    var es := logs[leader];
    SpecReplica.TargetChained(es, out);
    if committed > 0 {
      FilledHolds(c, logs, leader, committed, newView, dvcs, run, out, committed, es[committed - 1].hash);
      AgreesBelow(es, SpecReplica.Target(es, out), committed);
    }
  }

  lemma StartHash(c: Config, newView: nat, ms: seq<DoViewChange>, run: seq<Entry>, out: seq<Entry>, es: seq<Entry>)
    requires ms != [] && Mergeable(ms, 0) && MergedWith(c, newView, 0, ms, run, out) && SpecReplica.Grafts(es, out)
    ensures if Base(ms, 0, run) == [] then HashBefore(es, out) == EmptyHash
            else out != [] && ExtendsHash(HashBefore(es, out), out[0])
  {
    var b := Base(ms, 0, run);
    if b == [] {
      ConsiderAllFirst(Acc(b, Ids(b)), newView, 0, ms);
    } else {
      ConsiderAllPrefix(Acc(b, Ids(b)), newView, 0, ms);
    }
  }

  lemma FilledDecide(c: Config, logs: seq<seq<Entry>>, leader: nat, committed: nat, newView: nat,
                     dvcs: seq<DoViewChange>, run: seq<Entry>, out: seq<Entry>)
    requires FilledChange(c, logs, leader, committed, dvcs) && Mergeable(Latest(dvcs), 0)
    requires MergedWith(c, newView, 0, Latest(dvcs), run, out) && SpecReplica.Grafts(logs[leader], out)
    ensures var at, last := HashBefore(logs[leader], out), HashUpTo(EmptyHash, out, |out|);
            var seen := Ids(Base(Latest(dvcs), 0, run));
            && (NotFalling(last) <==> LeftoversAccepted(History(at), seen, 0, Latest(dvcs)))
            && (NoRepeats(last) <==> LeftoversNew(History(at), seen, 0, Latest(dvcs)))
  {
    var ms := Latest(dvcs);
    LatestFilled(c, logs, leader, committed, dvcs);
    FilledSupported(c, logs, leader, committed, dvcs, Latest(dvcs));
    StartHash(c, newView, ms, run, out, logs[leader]);
    LeftoversDecide(c, newView, 0, ms, run, out, HashBefore(logs[leader], out));
  }

  /** Exactly when no request is in the new log twice: no leftover is in the leader's log before the start. */
  lemma RepeatsExactly(c: Config, logs: seq<seq<Entry>>, leader: nat, committed: nat, newView: nat,
                       dvcs: seq<DoViewChange>, run: seq<Entry>, out: seq<Entry>)
    requires FilledChange(c, logs, leader, committed, dvcs) && Mergeable(Latest(dvcs), 0)
    requires MergedWith(c, newView, 0, Latest(dvcs), run, out)
    ensures SpecReplica.Grafts(logs[leader], out)
    ensures var pre := History(HashBefore(logs[leader], out));
            DistinctIds(SpecReplica.Target(logs[leader], out)) <==>
              LeftoversNew(pre, Ids(Base(Latest(dvcs), 0, run)), 0, Latest(dvcs))
  {
    FilledGrafts(c, logs, leader, committed, newView, dvcs, run, out);
    FilledDecide(c, logs, leader, committed, newView, dvcs, run, out);
    TargetByHash(logs[leader], out);
  }

  lemma DistinctByHash(log: seq<Entry>)
    requires CompleteLog(log) && log != []
    ensures DistinctIds(log) <==> NoRepeats(log[|log| - 1].hash)
  {
    var n := |log| - 1;
    ChainedSuffixLinked(EmptyHash, log, 0);
    assert log[0..] == log && ChainedAt(EmptyHash, log, 0);
    if NoRepeats(log[n].hash) {
      NoRepeatsDistinct(log);
    }
    if DistinctIds(log) {
      DistinctNoRepeats(log, n);
    }
  }

  lemma {:induction false} DistinctNoRepeats(log: seq<Entry>, i: nat)
    requires CompleteLog(log) && DistinctIds(log) && i < |log|
    ensures NoRepeats(log[i].hash)
    decreases i
  {
    assert ChainedAt(EmptyHash, log, i);
    if i > 0 {
      DistinctNoRepeats(log, i - 1);
      if Id(log[i].request) in History(log[i - 1].hash) {
        var p := HistoryInLog(log, i - 1, Id(log[i].request));
      }
    }
  }

  /** Whatever stage 2 takes, the leftovers are accepted. */
  ghost predicate MergesAccepted(c: Config, newView: nat, es: seq<Entry>, ms: seq<DoViewChange>)
    requires ms != [] && Mergeable(ms, 0)
  {
    forall run, out :: MergedWith(c, newView, 0, ms, run, out) && SpecReplica.Grafts(es, out) ==>
      LeftoversAccepted(History(HashBefore(es, out)), Ids(Base(ms, 0, run)), 0, ms)
  }

  /** Everything that a fast quorum held is in the log, in its place. */
  ghost predicate KeepsHeld(c: Config, logs: seq<seq<Entry>>, log: seq<Entry>)
    requires |logs| == c.n
  {
    forall op: nat, h :: op >= 1 && FastHeld(c, logs, op, h) ==> Holds(log, op, h)
  }

  lemma FilledInstalls(c: Config, logs: seq<seq<Entry>>, leader: nat, committed: nat, newView: nat,
                       dvcs: seq<DoViewChange>, out: seq<Entry>)
    requires FilledChange(c, logs, leader, committed, dvcs) && Mergeable(Latest(dvcs), 0)
    requires IsMerge(c, newView, 0, Latest(dvcs), out) && MergesAccepted(c, newView, logs[leader], Latest(dvcs))
    ensures SpecReplica.Installable(logs[leader], out, committed)
    ensures KeepsHeld(c, logs, SpecReplica.Target(logs[leader], out))
  {
    var run :| MergedWith(c, newView, 0, Latest(dvcs), run, out);
    FilledInstallableExactly(c, logs, leader, committed, newView, dvcs, run, out);
    forall op: nat, h | op >= 1 && FastHeld(c, logs, op, h)
      ensures Holds(SpecReplica.Target(logs[leader], out), op, h)
    {
      FilledHolds(c, logs, leader, committed, newView, dvcs, run, out, op, h);
    }
  }

  lemma InstalledKeeps(c: Config, logs: seq<seq<Entry>>, es: seq<Entry>, t: seq<Entry>, log: seq<Entry>)
    requires |logs| == c.n && KeepsHeld(c, logs, t) && SpecReplica.Installed(es, t, log)
    ensures KeepsHeld(c, logs, log)
  {
  }

  /**
   * The new leader merges the longer reports and installs the result. Afterwards its log has everything that a
   * fast quorum held, in its place, and it has committed as far as it had or as the furthest latest reporter.
   */
  method ReconcileFilled(r: SpecReplica.Replica, c: Config, newView: nat, dvcs: seq<DoViewChange>,
                         ghost logs: seq<seq<Entry>>, ghost leader: nat)
    requires r.Valid() && FilledChange(c, logs, leader, r.lastCommitted, dvcs) && logs[leader] == r.log.entries
    requires Mergeable(dvcs, 0) && MergesAccepted(c, newView, r.log.entries, Latest(dvcs))
    modifies r`lastSpeculative, r`lastCommitted, r`clientTable, r.log
    ensures r.Valid() && KeepsHeld(c, logs, r.log.entries)
    ensures r.lastCommitted == Max(old(r.lastCommitted), MostCommitted(Latest(dvcs)).lastcommitted)
  {
    ghost var es := r.log.entries;
    var merged := MergeLogs(c, newView, 0, dvcs);
    FilledInstalls(c, logs, leader, r.lastCommitted, newView, dvcs, merged);
    CommitPointOfMerge(c, newView, 0, Latest(dvcs), merged);
    r.InstallLog(merged);
    InstalledKeeps(c, logs, es, SpecReplica.Target(es, merged), r.log.entries);
  }
}

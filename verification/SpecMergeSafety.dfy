/**
 * Reconciliation safety: an operation that a fast quorum of replicas holds keeps its place through any
 * merge of at least f+1 reports.
 */
module SpecMergeSafety {
  import opened Numbers
  import opened Quorums
  import opened Logs
  import opened SpecMerge
  import opened SpecMergeShape

  /** The logs of all n replicas: each complete from operation 1 and hash-chained. */
  ghost predicate ReplicaLogs(c: Config, logs: seq<seq<Entry>>) {
    && |logs| == c.n
    && forall r :: 0 <= r < |logs| ==> CompleteLog(logs[r])
  }

  ghost predicate CompleteLog(log: seq<Entry>) {
    Numbered(log, 1) && Chained(EmptyHash, log)
  }

  predicate Holds(log: seq<Entry>, op: nat, h: Hash) {
    1 <= op <= |log| && log[op - 1].hash == h
  }

  /** The replicas whose log has hash `h` at operation `op`. */
  ghost function Holders(c: Config, logs: seq<seq<Entry>>, op: nat, h: Hash): (s: set<nat>)
    requires |logs| == c.n
    ensures forall r: nat :: r in s <==> r < c.n && Holds(logs[r], op, h)
    ensures s <= Replicas(c.n)
  {
    set r | r in Replicas(c.n) && Holds(logs[r], op, h)
  }

  ghost predicate FastHeld(c: Config, logs: seq<seq<Entry>>, op: nat, h: Hash)
    requires |logs| == c.n
  {
    |Holders(c, logs, op, h)| >= FastQuorumSize(c)
  }

  /** A report carries the end of its sender's log. */
  ghost predicate ReportOf(m: DoViewChange, log: seq<Entry>) {
    && Reported(m)
    && m.lastspeculative == |log|
    && (forall op :: Has(m, op) ==> At(m, op) == log[op - 1])
  }

  predicate DistinctSenders(ms: seq<DoViewChange>) {
    forall i, j :: 0 <= i < j < |ms| ==> ms[i].replicaidx != ms[j].replicaidx
  }

  ghost predicate Reports(c: Config, logs: seq<seq<Entry>>, ms: seq<DoViewChange>)
    requires |logs| == c.n
  {
    && DistinctSenders(ms)
    && forall m :: m in ms ==> m.replicaidx < c.n && ReportOf(m, logs[m.replicaidx])
  }

  function Senders(ms: seq<DoViewChange>): set<nat> {
    set m | m in ms :: m.replicaidx
  }

  // Counting reports is counting replicas.

  lemma {:induction false} SendersCount(ms: seq<DoViewChange>)
    requires DistinctSenders(ms)
    ensures |Senders(ms)| == |ms|
  {
    if ms != [] {
      var n := |ms| - 1;
      SendersCount(ms[..n]);
      SendersAppend(ms[..n], ms[n]);
      assert ms == ms[..n] + [ms[n]];
      LastSenderNew(ms);
    }
  }

  lemma SendersAppend(ms: seq<DoViewChange>, m: DoViewChange)
    ensures Senders(ms + [m]) == Senders(ms) + {m.replicaidx}
  {
  }

  ghost function Voters(ms: seq<DoViewChange>, op: nat, h: Hash): set<nat>
    requires AllReported(ms)
  {
    set m | m in ms && Votes(m, op, h) :: m.replicaidx
  }

  lemma VotersAppend(ms: seq<DoViewChange>, m: DoViewChange, op: nat, h: Hash)
    requires AllReported(ms + [m]) && AllReported(ms)
    ensures Voters(ms + [m], op, h) == Voters(ms, op, h) + if Votes(m, op, h) then {m.replicaidx} else {}
  {
  }

  lemma {:induction false} VotersCount(ms: seq<DoViewChange>, op: nat, h: Hash)
    requires AllReported(ms) && DistinctSenders(ms)
    ensures |Voters(ms, op, h)| == Count(ms, op, h)
  {
    if ms != [] {
      var n := |ms| - 1;
      assert ms == ms[..n] + [ms[n]];
      VotersCount(ms[..n], op, h);
      VotersAppend(ms[..n], ms[n], op, h);
      assert ms[n].replicaidx !in Voters(ms[..n], op, h) by {
        LastSenderNew(ms);
      }
    }
  }

  lemma LastSenderNew(ms: seq<DoViewChange>)
    requires ms != [] && DistinctSenders(ms)
    ensures forall m :: m in ms[..|ms| - 1] ==> m.replicaidx != ms[|ms| - 1].replicaidx
  {
  }

  lemma {:induction false} InViewDistinct(dvcs: seq<DoViewChange>, v: nat)
    requires DistinctSenders(dvcs)
    ensures DistinctSenders(InView(dvcs, v))
  {
    if dvcs != [] {
      var n := |dvcs| - 1;
      InViewDistinct(dvcs[..n], v);
      var r := InView(dvcs[..n], v);
      forall i | 0 <= i < |r|
        ensures r[i].replicaidx != dvcs[n].replicaidx
      {
        assert r[i] in dvcs[..n];
        var k :| 0 <= k < n && dvcs[k] == r[i];
      }
    }
  }

  // What a fast quorum forces on the reports.

  /** A replica that holds `h` at `op` holds one hash per earlier operation: the one in `h`'s history. */
  lemma HoldersAgreeBefore(a: seq<Entry>, b: seq<Entry>, op: nat, h: Hash, earlier: nat)
    requires CompleteLog(a) && CompleteLog(b)
    requires Holds(a, op, h) && Holds(b, op, h) && 1 <= earlier <= op
    ensures a[earlier - 1].hash == b[earlier - 1].hash
  {
    ChainedSuffixLinked(EmptyHash, a, 0);
    ChainedSuffixLinked(EmptyHash, b, 0);
    assert a[0..] == a && b[0..] == b;
    HashFixesHistory(a, b, op - 1, op - 1, op - earlier);
  }

  /** At least f+1 distinct reports, and those from holders of `h` at `op` are latest-view reports. */
  ghost predicate HoldersReport(c: Config, logs: seq<seq<Entry>>, dvcs: seq<DoViewChange>, op: nat, h: Hash)
    requires |logs| == c.n
  {
    && Reports(c, logs, dvcs)
    && |dvcs| >= QuorumSize(c)
    && forall m :: m in dvcs && m.replicaidx in Holders(c, logs, op, h) ==> m in Latest(dvcs)
  }

  /** Enough of the reports `ms` come from holders of `h` at `op`. */
  ghost predicate EnoughHolders(c: Config, logs: seq<seq<Entry>>, ms: seq<DoViewChange>, op: nat, h: Hash)
    requires |logs| == c.n
  {
    |Senders(ms) * Holders(c, logs, op, h)| >= RecoveryQuorum(c)
  }

  lemma EnoughHoldersReport(c: Config, logs: seq<seq<Entry>>, dvcs: seq<DoViewChange>, op: nat, h: Hash)
    requires ValidConfig(c) && |logs| == c.n
    requires FastHeld(c, logs, op, h) && HoldersReport(c, logs, dvcs, op, h)
    ensures EnoughHolders(c, logs, Latest(dvcs), op, h)
  {
    SendersCount(dvcs);
    FastQuorumArithmetic(c);
    var all, hold, late := Senders(dvcs), Holders(c, logs, op, h), Senders(Latest(dvcs));
    Overlap(c.n, all, hold);
    assert all * hold <= late * hold;
    SubsetCount(all * hold, late * hold);
  }

  /** A hash that a fast quorum holds is supported wherever the reports still have the operation. */
  lemma HeldIsSupported(c: Config, logs: seq<seq<Entry>>, ms: seq<DoViewChange>, op: nat, h: Hash,
                        earlier: nat, r: nat)
    requires ReplicaLogs(c, logs) && Reports(c, logs, ms)
    requires EnoughHolders(c, logs, ms, op, h)
    requires 1 <= earlier <= op
    requires forall m :: m in ms && earlier <= m.lastspeculative ==> Has(m, earlier)
    requires r in Holders(c, logs, op, h)
    ensures Needed(c, ms) == RecoveryQuorum(c)
    ensures Supported(c, ms, earlier, logs[r][earlier - 1].hash)
  {
    var h0 := logs[r][earlier - 1].hash;
    SendersCount(ms);
    VotersCount(ms, earlier, h0);
    var both := Senders(ms) * Holders(c, logs, op, h);
    SubsetCount(both, Senders(ms));
    forall x | x in both
      ensures x in Voters(ms, earlier, h0)
    {
      var m :| m in ms && m.replicaidx == x;
      HoldersAgreeBefore(logs[r], logs[x], op, h, earlier);
    }
    SubsetCount(both, Voters(ms, earlier, h0));
  }

  /** No other hash can be supported at an operation that a fast quorum holds. */
  lemma OthersUnsupported(c: Config, logs: seq<seq<Entry>>, ms: seq<DoViewChange>, op: nat, h: Hash, other: Hash)
    requires ValidConfig(c) && |logs| == c.n
    requires Reports(c, logs, ms) && FastHeld(c, logs, op, h)
    requires Needed(c, ms) == RecoveryQuorum(c)
    requires Supported(c, ms, op, other)
    ensures other == h
  {
    if other != h {
      VotersCount(ms, op, other);
      forall x | x in Voters(ms, op, other)
        ensures x in Replicas(c.n) && x !in Holders(c, logs, op, h)
      {
        var m :| m in ms && Votes(m, op, other) && m.replicaidx == x;
      }
      DisjointFit(c.n, Voters(ms, op, other), Holders(c, logs, op, h));
      FastQuorumArithmetic(c);
    }
  }

  // The two ways an operation gets into the merge.

  /** What each replica reports as committed is itself held by a fast quorum. */
  ghost predicate CommittedHeld(c: Config, logs: seq<seq<Entry>>, dvcs: seq<DoViewChange>)
    requires |logs| == c.n
    requires Reports(c, logs, dvcs)
  {
    forall m :: m in dvcs && m.lastcommitted > 0 ==>
      FastHeld(c, logs, m.lastcommitted, logs[m.replicaidx][m.lastcommitted - 1].hash)
  }

  /** Two fast-held operations lie on one history: who holds the later one holds the earlier one. */
  lemma FastHeldOneHistory(c: Config, logs: seq<seq<Entry>>, op: nat, h: Hash, later: nat, hl: Hash, r: nat)
    requires ValidConfig(c) && ReplicaLogs(c, logs)
    requires FastHeld(c, logs, op, h) && FastHeld(c, logs, later, hl) && 1 <= op <= later
    requires r in Holders(c, logs, later, hl)
    ensures r in Holders(c, logs, op, h)
  {
    var a, b := Holders(c, logs, op, h), Holders(c, logs, later, hl);
    Overlap(c.n, a, b);
    FastQuorumArithmetic(c);
    assert a * b != {};
    var x :| x in a * b;
    HoldersAgreeBefore(logs[x], logs[r], later, hl, op);
  }

  /** A fast-held operation up to a fast-held commit is in every log that has the commit. */
  lemma HeldBelowCommit(c: Config, logs: seq<seq<Entry>>, r: nat, committed: nat, op: nat, h: Hash)
    requires ValidConfig(c) && ReplicaLogs(c, logs) && r < c.n && 1 <= op <= committed <= |logs[r]|
    requires FastHeld(c, logs, committed, logs[r][committed - 1].hash) && FastHeld(c, logs, op, h)
    ensures Holds(logs[r], op, h)
  {
    FastHeldOneHistory(c, logs, op, h, committed, logs[r][committed - 1].hash, r);
  }

  /** Two logs that both have a fast-held commit agree up to the lower one. */
  lemma CommitsAgree(c: Config, logs: seq<seq<Entry>>, r: nat, p: nat, q: nat, k: nat, op: nat)
    requires ValidConfig(c) && ReplicaLogs(c, logs) && r < c.n && q < c.n
    requires 1 <= op <= p <= |logs[r]| && op <= k <= |logs[q]|
    requires FastHeld(c, logs, p, logs[r][p - 1].hash) && FastHeld(c, logs, k, logs[q][k - 1].hash)
    ensures logs[r][op - 1].hash == logs[q][op - 1].hash
  {
    if p <= k {
      HeldBelowCommit(c, logs, q, k, p, logs[r][p - 1].hash);
      HoldersAgreeBefore(logs[r], logs[q], p, logs[r][p - 1].hash, op);
    } else {
      HeldBelowCommit(c, logs, r, p, k, logs[q][k - 1].hash);
      HoldersAgreeBefore(logs[r], logs[q], k, logs[q][k - 1].hash, op);
    }
  }

  /** Operations up to the commit point come from the most committed report. */
  lemma TakenAsCommitted(ms: seq<DoViewChange>, maxStart: nat, op: nat) returns (k: nat)
    requires ms != [] && Mergeable(ms, maxStart)
    requires var mc := MostCommitted(ms); maxStart <= op <= mc.lastcommitted && Has(mc, op)
    ensures var s := Stage1(ms, maxStart);
            k < |s| && s[k].opnum == op && s[k].hash == At(MostCommitted(ms), op).hash
  {
    var mc := MostCommitted(ms);
    CommittedSlice(mc.entries, maxStart, mc.lastcommitted);
    k := op - Max(maxStart, mc.entries[0].opnum);
  }

  /** The reports reach far enough back to speak about `op`. */
  predicate Covers(ms: seq<DoViewChange>, op: nat) {
    forall m :: m in ms && m.entries != [] ==> m.entries[0].opnum <= op
  }

  lemma HeldTakenAsCommitted(c: Config, logs: seq<seq<Entry>>, maxStart: nat, ms: seq<DoViewChange>,
                             op: nat, h: Hash) returns (k: nat)
    requires ValidConfig(c) && ReplicaLogs(c, logs) && ms != [] && Mergeable(ms, maxStart)
    requires Reports(c, logs, ms) && CommittedHeld(c, logs, ms)
    requires 1 <= op && maxStart <= op <= MostCommitted(ms).lastcommitted && Covers(ms, op)
    requires FastHeld(c, logs, op, h)
    ensures var s := Stage1(ms, maxStart); k < |s| && s[k].opnum == op && s[k].hash == h
  {
    var mc := MostCommitted(ms);
    var lc := mc.lastcommitted;
    FastHeldOneHistory(c, logs, op, h, lc, logs[mc.replicaidx][lc - 1].hash, mc.replicaidx);
    k := TakenAsCommitted(ms, maxStart, op);
  }

  /** Some reporter holds a fast-held operation. */
  lemma SomeHolderReports(c: Config, logs: seq<seq<Entry>>, ms: seq<DoViewChange>, op: nat, h: Hash)
    returns (m: DoViewChange)
    requires |logs| == c.n && Reports(c, logs, ms) && EnoughHolders(c, logs, ms, op, h)
    ensures m in ms && m.replicaidx in Holders(c, logs, op, h)
    ensures op <= m.lastspeculative <= MaxSpeculative(ms)
  {
    var both := Senders(ms) * Holders(c, logs, op, h);
    assert both != {};
    var r :| r in both;
    m :| m in ms && m.replicaidx == r;
  }

  /** From `next` on, a report that is long enough has an entry. */
  predicate InRange(ms: seq<DoViewChange>, next: nat) {
    forall m, op :: m in ms && next <= op <= m.lastspeculative ==> Has(m, op)
  }

  lemma HeldReached(c: Config, logs: seq<seq<Entry>>, ms: seq<DoViewChange>, next: nat, run: seq<Entry>,
                    op: nat, h: Hash)
    requires ReplicaLogs(c, logs) && ms != [] && InRange(ms, next)
    requires Reports(c, logs, ms) && EnoughHolders(c, logs, ms, op, h)
    requires 1 <= next <= op && AgreedRun(c, ms, next, run)
    ensures next + |run| > op
    ensures Needed(c, ms) == RecoveryQuorum(c)
  {
    var m := SomeHolderReports(c, logs, ms, op, h);
    forall i | next <= i <= op
      ensures !Unsupported(c, ms, i)
    {
      HeldIsSupported(c, logs, ms, op, h, i, m.replicaidx);
    }
    HeldIsSupported(c, logs, ms, op, h, op, m.replicaidx);
  }

  lemma HeldTakenByRun(c: Config, logs: seq<seq<Entry>>, ms: seq<DoViewChange>, next: nat, run: seq<Entry>,
                       op: nat, h: Hash) returns (j: nat)
    requires ValidConfig(c) && ReplicaLogs(c, logs) && ms != [] && InRange(ms, next)
    requires Reports(c, logs, ms) && EnoughHolders(c, logs, ms, op, h) && FastHeld(c, logs, op, h)
    requires 1 <= next <= op && AgreedRun(c, ms, next, run)
    ensures j < |run| && run[j].opnum == op && run[j].hash == h
  {
    HeldReached(c, logs, ms, next, run, op, h);
    j := op - next;
    var e := run[j];
    var v := RunEntry(c, ms, next, run, op, e);
    OthersUnsupported(c, logs, ms, op, h, e.hash);
  }

  /** When the commit point is before `op`, stage 2 starts at or before `op`. */
  lemma Stage2StartsBefore(ms: seq<DoViewChange>, maxStart: nat, op: nat)
    requires ms != [] && Mergeable(ms, maxStart)
    requires 1 <= op && maxStart <= op && MostCommitted(ms).lastcommitted < op
    ensures 1 <= Stage2Start(ms, maxStart) <= op
  {
    if Stage1(ms, maxStart) != [] {
      Stage1Entry(ms, maxStart, 0);
    }
  }

  lemma HeldAfterCommits(c: Config, logs: seq<seq<Entry>>, maxStart: nat, ms: seq<DoViewChange>, run: seq<Entry>,
                         op: nat, h: Hash) returns (j: nat)
    requires ValidConfig(c) && ReplicaLogs(c, logs) && ms != [] && Mergeable(ms, maxStart)
    requires 1 <= op && maxStart <= op && MostCommitted(ms).lastcommitted < op
    requires Reports(c, logs, ms) && EnoughHolders(c, logs, ms, op, h) && FastHeld(c, logs, op, h)
    requires AgreedRun(c, ms, Stage2Start(ms, maxStart), run)
    ensures j < |run| && run[j].opnum == op && run[j].hash == h
  {
    var next := Stage2Start(ms, maxStart);
    assert 1 <= next <= op by {
      Stage2StartsBefore(ms, maxStart, op);
    }
    assert InRange(ms, next) by {
      StageTwoInRange(ms, maxStart);
    }
    j := HeldTakenByRun(c, logs, ms, next, run, op, h);
  }

  /** Stages 1 and 2 place a held operation; later stages only append. */
  lemma HeldInBase(c: Config, logs: seq<seq<Entry>>, maxStart: nat, ms: seq<DoViewChange>, run: seq<Entry>,
                   op: nat, h: Hash) returns (e: Entry)
    requires ValidConfig(c) && ReplicaLogs(c, logs) && ms != [] && Mergeable(ms, maxStart)
    requires 1 <= op && maxStart <= op && Covers(ms, op)
    requires FastHeld(c, logs, op, h) && EnoughHolders(c, logs, ms, op, h)
    requires Reports(c, logs, ms) && CommittedHeld(c, logs, ms)
    requires AgreedRun(c, ms, Stage2Start(ms, maxStart), run)
    ensures e in Stage1(ms, maxStart) || e in run
    ensures e.opnum == op && e.hash == h
  {
    if op <= MostCommitted(ms).lastcommitted {
      var k := HeldTakenAsCommitted(c, logs, maxStart, ms, op, h);
      e := Stage1(ms, maxStart)[k];
    } else {
      var j := HeldAfterCommits(c, logs, maxStart, ms, run, op, h);
      e := run[j];
    }
  }

  lemma LatestReports(c: Config, logs: seq<seq<Entry>>, dvcs: seq<DoViewChange>)
    requires |logs| == c.n && Reports(c, logs, dvcs)
    ensures Reports(c, logs, Latest(dvcs))
  {
    InViewDistinct(dvcs, MaxView(dvcs));
  }

  lemma LatestMergeSafety(c: Config, logs: seq<seq<Entry>>, newView: nat, maxStart: nat, ms: seq<DoViewChange>,
                          out: seq<Entry>, op: nat, h: Hash)
    requires ValidConfig(c) && ReplicaLogs(c, logs) && ms != [] && Mergeable(ms, maxStart)
    requires 1 <= op && maxStart <= op && Covers(ms, op)
    requires FastHeld(c, logs, op, h) && EnoughHolders(c, logs, ms, op, h)
    requires Reports(c, logs, ms) && CommittedHeld(c, logs, ms)
    requires IsMerge(c, newView, maxStart, ms, out)
    ensures exists e :: e in out && e.opnum == op && e.hash == h
  {
    var run :| MergedWith(c, newView, maxStart, ms, run, out);
    var b := Base(ms, maxStart, run);
    var e := HeldInBase(c, logs, maxStart, ms, run, op, h);
    ConsiderAllPrefix(Acc(b, Ids(b)), newView, maxStart, ms);
    assert e in b;
  }

  /**
   * Reconciliation safety. Whatever a fast quorum holds at an operation the reports cover is in every
   * merge of f+1 or more reports, at the same operation number with the same history, as long as the
   * holders among the reporters are in the latest view and reported commits are themselves fast-held.
   */
  lemma MergeSafety(c: Config, logs: seq<seq<Entry>>, newView: nat, maxStart: nat, dvcs: seq<DoViewChange>,
                    out: seq<Entry>, op: nat, h: Hash)
    requires ValidConfig(c) && ReplicaLogs(c, logs) && dvcs != [] && Mergeable(dvcs, maxStart)
    requires 1 <= op && maxStart <= op && Covers(Latest(dvcs), op)
    requires FastHeld(c, logs, op, h) && HoldersReport(c, logs, dvcs, op, h)
    requires CommittedHeld(c, logs, dvcs)
    requires IsMerge(c, newView, maxStart, Latest(dvcs), out)
    ensures exists e :: e in out && e.opnum == op && e.hash == h
  {
    var ms := Latest(dvcs);
    LatestReports(c, logs, dvcs);
    EnoughHoldersReport(c, logs, dvcs, op, h);
    LatestMergeSafety(c, logs, newView, maxStart, ms, out, op, h);
  }

  /** Under the same hypotheses the newest committed entry is supported, as MergeShape asks. */
  lemma CommittedHeldSupported(c: Config, logs: seq<seq<Entry>>, ms: seq<DoViewChange>, maxStart: nat)
    requires ReplicaLogs(c, logs) && ms != [] && Mergeable(ms, maxStart)
    requires Reports(c, logs, ms) && Covers(ms, MostCommitted(ms).lastcommitted)
    requires forall h :: Votes(MostCommitted(ms), MostCommitted(ms).lastcommitted, h) ==>
               EnoughHolders(c, logs, ms, MostCommitted(ms).lastcommitted, h)
    ensures CommittedSupported(c, ms, maxStart)
  {
    var s := Stage1(ms, maxStart);
    if s != [] {
      var e := s[|s| - 1];
      assert Supported(c, ms, e.opnum, e.hash) by {
        Stage1Last(ms, maxStart, e);
        CommitPointSupported(c, logs, ms, MostCommitted(ms), e.opnum, e.hash);
      }
    }
  }

  lemma CommitPointSupported(c: Config, logs: seq<seq<Entry>>, ms: seq<DoViewChange>, m: DoViewChange, op: nat, h: Hash)
    requires ReplicaLogs(c, logs) && Reports(c, logs, ms) && m in ms
    requires Votes(m, op, h) && Covers(ms, op)
    requires EnoughHolders(c, logs, ms, op, h)
    ensures Supported(c, ms, op, h)
  {
    HeldIsSupported(c, logs, ms, op, h, op, m.replicaidx);
  }

}

/** A view together with the view change that follows it: nothing committed in the view is lost. */
module NopaxosViewChange {
  import opened Quorums
  import opened Logs
  import opened Nopaxos
  import opened NopaxosCore
  import opened NopaxosSafety
  import opened NopaxosSteps
  import NopaxosRuns
  import Views = NopaxosViews
  import opened NopaxosMerge

  /** What a replica that left the view reports. */
  function ReportOf(i: nat, id: Views.Id, r: Replica): Report {
    Report(i, id, |r.core.log|, Listed(r.core.gaps, |r.core.log|))
  }

  /**
   * The reports a later leader may collect: under this view's identifier what the replica had when it
   * left, under a lower one anything. A replica that has the leader's log up to p, beyond the log the view
   * began with, took part in the view; for less, one report from the view is enough.
   */
  ghost predicate Collected(v: View, s: System, id: Views.Id, rs: seq<Report>, p: nat)
    requires v.leader < |s.replicas|
  {
    && (forall x :: 0 <= x < |rs| ==> ReportOk(v, s, id, rs[x], p))
    && (p <= |v.base| ==> exists x :: 0 <= x < |rs| && rs[x].id == id)
  }

  ghost predicate ReportOk(v: View, s: System, id: Views.Id, x: Report, p: nat)
    requires v.leader < |s.replicas|
  {
    && x.replica < |s.replicas| && Views.Below(x.id, id)
    && (x.id == id ==> !s.replicas[x.replica].active && x == ReportOf(x.replica, id, s.replicas[x.replica]))
    && (p > |v.base| && x.replica in NopaxosRuns.Holders(v, s, p) ==> x.id == id)
  }

  lemma ReportLeft(v: View, s: System, id: Views.Id, x: Report, p: nat)
    requires Inv(v, s) && ReportOk(v, s, id, x, p)
    ensures ReportFrom(x, id, p, NoopOps(EnvOf(v, s).l))
  {
  }

  /** A report from the view, by a replica that has the leader's log up to p, has its gaps there. */
  lemma ReportReaches(v: View, s: System, id: Views.Id, x: Report, p: nat)
    requires Inv(v, s) && ReportOk(v, s, id, x, p) && x.id == id
    requires x.replica in NopaxosRuns.Holders(v, s, p)
    ensures x.lastOp >= p && SameUpTo(GapSet(x), NoopOps(EnvOf(v, s).l), p)
  {
  }

  /** One of the reports is from the view, by a replica that has the leader's log up to p. */
  lemma SomeReportReaches(v: View, s: System, id: Views.Id, rs: seq<Report>, p: nat) returns (x: nat)
    requires Inv(v, s) && Collected(v, s, id, rs, p) && |Reporters(rs)| >= QuorumSize(v.c)
    requires |NopaxosRuns.Holders(v, s, p)| >= QuorumSize(v.c) && |s.replicas| == v.c.n
    ensures x < |rs| && rs[x].id == id && rs[x].replica in NopaxosRuns.Holders(v, s, p)
  {
    if p <= |v.base| {
      x :| 0 <= x < |rs| && rs[x].id == id;
      assert ReportOk(v, s, id, rs[x], p);
      NopaxosRuns.BaseHeldBy(v, s, p, rs[x].replica);
    } else {
      forall r | r in Reporters(rs)
        ensures r in Replicas(v.c.n)
      {
        var y :| 0 <= y < |rs| && rs[y].replica == r;
        assert ReportOk(v, s, id, rs[y], p);
      }
      var r := QuorumsMeet(v.c, Reporters(rs), NopaxosRuns.Holders(v, s, p));
      x :| 0 <= x < |rs| && rs[x].replica == r;
      assert ReportOk(v, s, id, rs[x], p);
    }
  }

  /**
   * In every run of a view, once a replica has committed up to p, any quorum of reports collected after the
   * view, by a leader whose latest reports are from it, merges into a log that reaches p and whose
   * gaps up to p are exactly those of the committed log.
   */
  lemma CommitsSurvive(v: View, run: seq<System>, steps: seq<Step>, j: nat, i: nat, k: nat, id: Views.Id,
                       rs: seq<Report>, merged: Views.Id, lastOp: nat, gaps: set<nat>)
    requires NopaxosRuns.Run(v, run, steps) && j <= k < |run| && i < v.c.n
    requires |run[j].replicas| == |run[k].replicas| == v.c.n
    requires Collected(v, run[k], id, rs, run[j].replicas[i].committed)
    requires |Reporters(rs)| >= QuorumSize(v.c) && IsMerge(rs, merged, lastOp, gaps)
    ensures var p, log := run[j].replicas[i].committed, NopaxosRuns.LogOf(run[j], i);
            merged == id && lastOp >= p && forall g: nat :: 1 <= g <= p ==> (g in gaps <==> IsNoOp(log, g))
  {
    var s, p := run[k], run[j].replicas[i].committed;
    NopaxosRuns.Reachable(v, run, steps, k);
    NopaxosRuns.CommitDurable(v, run, steps, j, i, k);
    var known := NoopOps(EnvOf(v, s).l);
    forall x | 0 <= x < |rs|
      ensures ReportFrom(rs[x], id, p, known)
    {
      assert ReportOk(v, s, id, rs[x], p);
      ReportLeft(v, s, id, rs[x], p);
    }
    var x := SomeReportReaches(v, s, id, rs, p);
    assert ReportOk(v, s, id, rs[x], p);
    ReportReaches(v, s, id, rs[x], p);
    MergeKeepsKnown(rs, merged, lastOp, gaps, id, p, known, x);
    forall g: nat | 1 <= g <= p
      ensures g in gaps <==> IsNoOp(NopaxosRuns.LogOf(run[j], i), g)
    {
      assert g in known <==> IsNoOp(EnvOf(v, s).l, g);
    }
  }

  /** The slot once the merged gaps are in: a gap's operation is a no-op. */
  function Patched(slot: Slot, op: nat, gaps: set<nat>): Slot {
    if op in gaps then slot.(content := NoOp) else slot
  }

  /**
   * And so are the contents: whichever replica of the view an operation up to p is taken from, once the merged
   * gaps are in it is the committed one.
   */
  lemma ContentsSurvive(v: View, run: seq<System>, steps: seq<Step>, j: nat, i: nat, k: nat, id: Views.Id,
                        rs: seq<Report>, merged: Views.Id, lastOp: nat, gaps: set<nat>, x: nat, op: nat)
    requires NopaxosRuns.Run(v, run, steps) && j <= k < |run| && i < v.c.n && x < v.c.n
    requires |run[j].replicas| == |run[k].replicas| == v.c.n
    requires Collected(v, run[k], id, rs, run[j].replicas[i].committed)
    requires |Reporters(rs)| >= QuorumSize(v.c) && IsMerge(rs, merged, lastOp, gaps)
    requires 1 <= op <= run[j].replicas[i].committed && op <= |NopaxosRuns.LogOf(run[k], x)|
    ensures op <= |NopaxosRuns.LogOf(run[j], i)|
    ensures Patched(NopaxosRuns.LogOf(run[k], x)[op - 1], op, gaps) == NopaxosRuns.LogOf(run[j], i)[op - 1]
  {
    CommitsSurvive(v, run, steps, j, i, k, id, rs, merged, lastOp, gaps);
    NopaxosRuns.CommitDurable(v, run, steps, j, i, k);
    NopaxosRuns.NoOpsAreLeaders(v, run, steps, k, x, op);
    NopaxosRuns.Reachable(v, run, steps, k);
    var e := EnvOf(v, run[k]);
    assert RepOk(e, x, run[k].replicas[x]) && NopaxosRuns.LogOf(run[j], i)[op - 1] == e.l[op - 1];
    PatchedIsLeaders(v, e.stamped, e.l, NopaxosRuns.LogOf(run[k], x), op, gaps);
  }

  /** A replica's slot with the leader's gaps in is the leader's slot. */
  lemma PatchedIsLeaders(v: View, stamped: seq<Request>, l: seq<Slot>, log: seq<Slot>, op: nat, gaps: set<nat>)
    requires LogOk(v, stamped, l) && LogOk(v, stamped, log) && 1 <= op <= |l| && op <= |log|
    requires (IsNoOp(log, op) ==> IsNoOp(l, op)) && (op in gaps <==> IsNoOp(l, op))
    ensures Patched(log[op - 1], op, gaps) == l[op - 1]
  {
    assert SlotOk(v, stamped, log, op - 1) && SlotOk(v, stamped, l, op - 1);
  }
}

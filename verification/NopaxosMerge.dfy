/** The new leader's merge of view-change reports, and that it keeps what was committed. */
module NopaxosMerge {
  import opened Quorums
  import opened Logs
  import opened NopaxosViews

  /** What a replica reports: the identifier it last operated under, the end of its log and its gaps. */
  datatype Report = Report(replica: nat, id: Id, lastOp: nat, gaps: seq<nat>)

  function IdsOf(rs: seq<Report>): (ids: seq<Id>)
    ensures |ids| == |rs| && forall i :: 0 <= i < |rs| ==> ids[i] == rs[i].id
  {
    seq(|rs|, i requires 0 <= i < |rs| => rs[i].id)
  }

  /** Some report under `id` has the gap. */
  ghost predicate SomeGap(rs: seq<Report>, id: Id, g: nat) {
    exists i :: 0 <= i < |rs| && rs[i].id == id && g in rs[i].gaps
  }

  /** The merged log's end is the furthest end reported under `id`. */
  ghost predicate Furthest(rs: seq<Report>, id: Id, op: nat) {
    && (forall i :: 0 <= i < |rs| && rs[i].id == id ==> rs[i].lastOp <= op)
    && (op == 0 || exists i :: 0 <= i < |rs| && rs[i].id == id && rs[i].lastOp == op)
  }

  /** From `start`, the log was advanced over committed gaps as far as they go. */
  predicate Filled(start: nat, gaps: set<nat>, last: nat) {
    && start <= last && last + 1 !in gaps
    && forall op: nat :: start < op <= last ==> op in gaps
  }

  ghost predicate IsMerge(rs: seq<Report>, id: Id, lastOp: nat, gaps: set<nat>) {
    && rs != [] && id == Maxima(IdsOf(rs))
    && (forall g :: g in gaps <==> SomeGap(rs, id, g))
    && Furthest(rs, id, lastOp)
  }

  // The code.

  function Beyond(gaps: set<nat>, last: nat): set<nat> {
    set g | g in gaps && g > last
  }

  /** The gaps at the end of the log, one after the other, advance it. */
  method Advance(start: nat, gaps: set<nat>) returns (last: nat)
    ensures Filled(start, gaps, last)
  {
    last := start;
    while last + 1 in gaps
      invariant start <= last && forall op: nat :: start < op <= last ==> op in gaps
      decreases Beyond(gaps, last)
    {
      assert last + 1 in Beyond(gaps, last) && last + 1 !in Beyond(gaps, last + 1);
      last := last + 1;
    }
  }

  /** Adds gaps to those known, advancing the log when the next operation is one. */
  method InstallCommittedGaps(ghost start: nat, last: nat, gaps: set<nat>, more: seq<nat>)
    returns (last': nat, gaps': set<nat>)
    requires Filled(start, gaps, last)
    ensures gaps' == gaps + set g | g in more
    ensures Filled(start, gaps', last')
  {
    last', gaps' := last, gaps;
    for i := 0 to |more|
      invariant gaps' == gaps + set g | g in more[..i]
      invariant Filled(start, gaps', last')
    {
      var gap := more[i];
      assert more[..i + 1] == more[..i] + [gap];
      if gap !in gaps' {
        gaps' := gaps' + {gap};
        if last' + 1 == gap {
          last' := Advance(last' + 1, gaps');
        }
      }
    }
    assert more[..|more|] == more;
  }

  /** The first loop: the largest session and view, each for itself. */
  method LatestId(own: Report, msgs: seq<Report>) returns (id: Id, latestOp: nat)
    ensures id == Maxima(IdsOf([own] + msgs))
    ensures latestOp == if own.id == id then own.lastOp else 0
  {
    id, latestOp := own.id, own.lastOp;
    assert IdsOf([own] + msgs[..0]) == [own.id];
    for i := 0 to |msgs|
      invariant id == Maxima(IdsOf([own] + msgs[..i]))
      invariant Below(own.id, id) && latestOp == if own.id == id then own.lastOp else 0
    {
      var x := msgs[i];
      ghost var ids := IdsOf([own] + msgs[..i + 1]);
      assert ids[..|ids| - 1] == IdsOf([own] + msgs[..i]);
      if x.id.sess > id.sess {
        id, latestOp := id.(sess := x.id.sess), 0;
      }
      if x.id.view > id.view {
        id, latestOp := id.(view := x.id.view), 0;
      }
    }
    assert msgs[..|msgs|] == msgs;
  }

  /** Where the merged log comes from: nobody, or a report that reaches further than the leader's own. */
  ghost predicate SourceOk(own: Report, msgs: seq<Report>, id: Id, latestOp: nat, from: Option<nat>) {
    match from
    case None => latestOp == if own.id == id then own.lastOp else 0
    case Some(i) =>
      && (own.id == id ==> latestOp > own.lastOp)
      && exists j :: 0 <= j < |msgs| && msgs[j].id == id && msgs[j].lastOp == latestOp && msgs[j].replica == i
  }

  /** The second loop: gaps and the furthest end, from the reports under the latest identifier only. */
  method Collect(own: Report, msgs: seq<Report>, id: Id, ghost start: nat, op: nat, last0: nat, gaps0: set<nat>)
    returns (latestOp: nat, gaps: set<nat>, from: Option<nat>, last: nat)
    requires op == if own.id == id then own.lastOp else 0
    requires forall g :: g in gaps0 <==> own.id == id && g in own.gaps
    requires Filled(start, gaps0, last0)
    ensures (forall g :: g in gaps <==> SomeGap([own] + msgs, id, g)) && Furthest([own] + msgs, id, latestOp)
    ensures SourceOk(own, msgs, id, latestOp, from) && Filled(start, gaps, last)
  {
    latestOp, gaps, from, last := op, gaps0, None, last0;
    ghost var rs := [own] + msgs;
    assert rs[..1] == [own];
    OwnReport(own, id, gaps, latestOp);
    for i := 0 to |msgs|
      invariant Filled(start, gaps, last) && SourceOk(own, msgs, id, latestOp, from)
      invariant (forall g :: g in gaps <==> SomeGap(rs[..i + 1], id, g)) && Furthest(rs[..i + 1], id, latestOp)
    {
      var x := msgs[i];
      assert rs[..i + 2] == rs[..i + 1] + [x];
      ghost var before, reached := gaps, latestOp;
      if x.id == id {
        last, gaps := InstallCommittedGaps(start, last, gaps, x.gaps);
        if x.lastOp > latestOp {
          latestOp, from := x.lastOp, Some(x.replica);
        }
      }
      OneMoreReport(rs[..i + 1], x, id, before, gaps, reached, latestOp);
    }
    assert rs[..|rs|] == rs;
  }

  /**
   * The merge. `committed` is the new leader's commit point, to which its log is cut back when it is not
   * up to date; `from` is the replica that has the rest of the merged log; `last` is the counter of
   * the leader's last operation once the gaps are in.
   */
  method Merge(own: Report, committed: nat, msgs: seq<Report>)
    returns (id: Id, latestOp: nat, gaps: set<nat>, from: Option<nat>, last: nat)
    requires forall g :: g in own.gaps ==> g <= own.lastOp
    ensures MergeYields(own, committed, msgs, id, latestOp, gaps, from, last)
  {
    id, latestOp := LatestId(own, msgs);
    last, gaps := own.lastOp, set g | g in own.gaps;
    assert Below(own.id, id) by {
      assert IdsOf([own] + msgs)[0] == own.id;
    }
    if own.id.sess < id.sess || own.id.view < id.view {
      last, gaps := committed, {};
    }
    latestOp, gaps, from, last := Collect(own, msgs, id, last, latestOp, last, gaps);
  }

  lemma OwnReport(own: Report, id: Id, gaps: set<nat>, op: nat)
    requires op == if own.id == id then own.lastOp else 0
    requires forall g :: g in gaps <==> own.id == id && g in own.gaps
    ensures (forall g :: g in gaps <==> SomeGap([own], id, g)) && Furthest([own], id, op)
  {
    forall g | g in gaps
      ensures SomeGap([own], id, g)
    {
      assert [own][0].id == id && g in [own][0].gaps;
    }
    if own.id == id {
      assert [own][0].id == id && [own][0].lastOp == op;
    }
  }

  lemma OneMoreReport(rs: seq<Report>, x: Report, id: Id, gaps: set<nat>, gaps': set<nat>, op: nat, op': nat)
    requires (forall g :: g in gaps <==> SomeGap(rs, id, g)) && Furthest(rs, id, op)
    requires gaps' == if x.id == id then gaps + (set g | g in x.gaps) else gaps
    requires op' == if x.id == id && x.lastOp > op then x.lastOp else op
    ensures (forall g :: g in gaps' <==> SomeGap(rs + [x], id, g)) && Furthest(rs + [x], id, op')
  {
    var rs' := rs + [x];
    assert rs'[|rs|] == x;
    forall g
      ensures g in gaps' <==> SomeGap(rs', id, g)
    {
      if SomeGap(rs, id, g) {
        var i :| 0 <= i < |rs| && rs[i].id == id && g in rs[i].gaps;
        assert rs'[i].id == id && g in rs'[i].gaps;
      }
      if SomeGap(rs', id, g) {
        var i :| 0 <= i < |rs'| && rs'[i].id == id && g in rs'[i].gaps;
        assert i < |rs| ==> rs[i].id == id && g in rs[i].gaps;
      }
    }
    if op != 0 {
      var i :| 0 <= i < |rs| && rs[i].id == id && rs[i].lastOp == op;
      assert rs'[i].id == id && rs'[i].lastOp == op;
    }
  }

  // What the merge keeps.

  function Reporters(rs: seq<Report>): set<nat> {
    set i | 0 <= i < |rs| :: rs[i].replica
  }

  /** The gaps among the first p operations. */
  predicate SameUpTo(gaps: set<nat>, other: set<nat>, p: nat) {
    forall g: nat :: 1 <= g <= p ==> (g in gaps <==> g in other)
  }

  function GapSet(x: Report): set<nat> {
    set g | g in x.gaps
  }

  /**
   * The reports as a view leaves them: nobody is beyond it; whoever acknowledged the sync point reports
   * under this view, reaching the point with its gaps; and whoever reports under it has no other gap
   * up to there.
   */
  ghost predicate LeftBy(rs: seq<Report>, id: Id, acked: set<nat>, p: nat, gaps: set<nat>) {
    forall i :: 0 <= i < |rs| ==> ReportLeftBy(rs[i], id, acked, p, gaps)
  }

  predicate ReportLeftBy(x: Report, id: Id, acked: set<nat>, p: nat, gaps: set<nat>) {
    && Below(x.id, id)
    && (x.replica in acked ==> x.id == id && x.lastOp >= p && SameUpTo(GapSet(x), gaps, p))
    && (x.id == id ==> forall g :: g in x.gaps && g <= p ==> g in gaps)
  }

  /** Any quorum of reports yields a merged log that reaches the sync point with exactly its gaps. */
  lemma MergeKeepsSyncPoint(c: Config, rs: seq<Report>, id: Id, lastOp: nat, gaps: set<nat>,
                            last: Id, acked: set<nat>, p: nat, known: set<nat>)
    requires ValidConfig(c) && IsMerge(rs, id, lastOp, gaps) && LeftBy(rs, last, acked, p, known)
    requires Reporters(rs) <= Replicas(c.n) && |Reporters(rs)| >= QuorumSize(c)
    requires acked <= Replicas(c.n) && |acked| >= QuorumSize(c)
    ensures id == last && lastOp >= p && SameUpTo(gaps, known, p)
  {
    var r := QuorumsMeet(c, Reporters(rs), acked);
    var i :| 0 <= i < |rs| && rs[i].replica == r;
    forall j | 0 <= j < |rs|
      ensures ReportFrom(rs[j], last, p, known)
    {
      assert ReportLeftBy(rs[j], last, acked, p, known);
    }
    assert ReportLeftBy(rs[i], last, acked, p, known);
    MergeKeepsKnown(rs, id, lastOp, gaps, last, p, known, i);
  }

  /** No report is from beyond `last`, and one from it has no gap up to p that is not known. */
  predicate ReportFrom(x: Report, last: Id, p: nat, known: set<nat>) {
    Below(x.id, last) && (x.id == last ==> forall g :: g in x.gaps && g <= p ==> g in known)
  }

  /** One report from `last` that reaches p with exactly the known gaps decides the merge up to p. */
  lemma MergeKeepsKnown(rs: seq<Report>, id: Id, lastOp: nat, gaps: set<nat>, last: Id, p: nat, known: set<nat>, i: nat)
    requires IsMerge(rs, id, lastOp, gaps) && forall j :: 0 <= j < |rs| ==> ReportFrom(rs[j], last, p, known)
    requires i < |rs| && rs[i].id == last && rs[i].lastOp >= p && SameUpTo(GapSet(rs[i]), known, p)
    ensures id == last && lastOp >= p && SameUpTo(gaps, known, p)
  {
    MaximaBelow(rs, last, i);
    forall g: nat | 1 <= g <= p
      ensures g in gaps <==> g in known
    {
      if g in known {
        assert g in GapSet(rs[i]) && SomeGap(rs, id, g);
      }
      if g in gaps {
        var j :| 0 <= j < |rs| && rs[j].id == id && g in rs[j].gaps;
        assert ReportFrom(rs[j], last, p, known);
      }
    }
  }

  lemma MaximaBelow(rs: seq<Report>, last: Id, i: nat)
    requires i < |rs| && rs[i].id == last && forall j :: 0 <= j < |rs| ==> Below(rs[j].id, last)
    ensures Maxima(IdsOf(rs)) == last
  {
    MaximaLeast(IdsOf(rs), last);
    assert Below(IdsOf(rs)[i], Maxima(IdsOf(rs)));
  }

  lemma {:induction false} MaximaLeast(ids: seq<Id>, bound: Id)
    requires ids != [] && forall i :: 0 <= i < |ids| ==> Below(ids[i], bound)
    ensures Below(Maxima(ids), bound)
    decreases |ids|
  {
    if |ids| > 1 {
      MaximaLeast(ids[..|ids| - 1], bound);
    }
  }

  // The assertions after the merge.

  /** A report's gaps lie within its log, as every replica makes sure before it reports. */
  predicate WithinLog(x: Report) {
    forall g :: g in x.gaps ==> g <= x.lastOp
  }

  /** The merged gaps lie within the merged log. */
  lemma GapsWithinMerge(rs: seq<Report>, id: Id, lastOp: nat, gaps: set<nat>)
    requires IsMerge(rs, id, lastOp, gaps) && forall i :: 0 <= i < |rs| ==> WithinLog(rs[i])
    ensures forall g :: g in gaps ==> g <= lastOp
  {
  }

  /** Where the leader's counter stands before the gaps: its own end, or the commit point it was cut back to. */
  function StartOf(own: Report, committed: nat, id: Id): nat {
    if own.id == id then own.lastOp else committed
  }

  /** What Merge yields. */
  ghost predicate MergeYields(own: Report, committed: nat, msgs: seq<Report>, id: Id, latestOp: nat, gaps: set<nat>,
                              from: Option<nat>, last: nat)
  {
    && IsMerge([own] + msgs, id, latestOp, gaps) && SourceOk(own, msgs, id, latestOp, from)
    && Filled(StartOf(own, committed, id), gaps, last)
  }

  /** Some operation between the leader's counter and the merged end is not a gap. */
  ghost predicate MissesOp(start: nat, latestOp: nat, gaps: set<nat>) {
    exists op: nat :: start < op <= latestOp && op !in gaps
  }

  /**
   * The two assertions on the leader's counter. Where entries have to be fetched it must still be below the merged
   * end, which holds exactly when a missing operation is not a gap: not when all that is missing was appended as
   * gaps, and not when nothing is missing. Where nothing has to be fetched it must be the merged end, which holds
   * exactly for a leader that is up to date or has committed nothing.
   */
  lemma FetchAssertion(own: Report, committed: nat, msgs: seq<Report>, id: Id, latestOp: nat, gaps: set<nat>,
                       from: Option<nat>, last: nat)
    requires MergeYields(own, committed, msgs, id, latestOp, gaps, from, last)
    requires WithinLog(own) && forall i :: 0 <= i < |msgs| ==> WithinLog(msgs[i])
    ensures from.Some? ==> (last < latestOp <==> MissesOp(StartOf(own, committed, id), latestOp, gaps))
    ensures from == None ==> (last == latestOp <==> own.id == id || committed == 0)
  {
    var rs, start := [own] + msgs, StartOf(own, committed, id);
    forall i | 0 <= i < |rs|
      ensures WithinLog(rs[i])
    {
      assert i > 0 ==> rs[i] == msgs[i - 1];
    }
    GapsWithinMerge(rs, id, latestOp, gaps);
    if last < latestOp {
      assert last + 1 !in gaps;
    }
    assert last > start ==> start + 1 in gaps;
  }
}

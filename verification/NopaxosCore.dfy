/** What processing operations keeps in a replica's log, relative to the leader's log `l`. */
module NopaxosCore {
  import opened Quorums
  import opened Logs
  import opened Nopaxos

  /** The message number of the first operation after the base. */
  function First(v: View): nat {
    if v.next == 1 then v.start else v.next
  }

  function NumberOf(v: View, op: nat): int {
    First(v) + op - |v.base| - 1
  }

  /** The first operation that gap agreement can decide: a session's first message is never a gap. */
  function FirstGap(v: View): nat {
    |v.base| + if v.next == 1 then 2 else 1
  }

  predicate ContentOk(stamped: seq<Request>, msgnum: int, content: Content) {
    content.Op? ==> 1 <= msgnum <= |stamped| && stamped[msgnum - 1] == content.req
  }

  predicate SlotOk(v: View, stamped: seq<Request>, log: seq<Slot>, j: nat)
    requires j < |log|
  {
    if j < |v.base| then log[j] == v.base[j]
    else log[j].msgnum == NumberOf(v, j + 1) && ContentOk(stamped, log[j].msgnum, log[j].content)
  }

  /** The log extends the base, and what was received is what the sequencer put there. */
  predicate LogOk(v: View, stamped: seq<Request>, log: seq<Slot>) {
    |v.base| <= |log| && forall j :: 0 <= j < |log| ==> SlotOk(v, stamped, log, j)
  }

  /** The no-ops of the log are its committed gaps. */
  predicate GapsAreNoOps(k: Core) {
    forall op: nat {:trigger op in k.gaps} {:trigger IsNoOp(k.log, op)} ::
      1 <= op <= |k.log| ==> (op in k.gaps <==> IsNoOp(k.log, op))
  }

  predicate NextOk(v: View, k: Core)
    requires |v.base| <= |k.log|
  {
    k.next == if |k.log| == |v.base| then v.next else NumberOf(v, |k.log| + 1)
  }

  /** A gap is a no-op of the leader's. */
  predicate GapOk(v: View, l: seq<Slot>, g: nat) {
    IsNoOp(l, g) && (g <= |v.base| || g >= FirstGap(v))
  }

  predicate GapsOk(v: View, l: seq<Slot>, gaps: set<nat>) {
    forall g :: g in gaps ==> GapOk(v, l, g)
  }

  ghost predicate CoreOk(v: View, stamped: seq<Request>, l: seq<Slot>, k: Core) {
    LogOk(v, stamped, k.log) && NextOk(v, k) && GapsAreNoOps(k) && GapsOk(v, l, k.gaps)
  }

  /** The first p operations are the leader's. */
  predicate Match(l: seq<Slot>, log: seq<Slot>, p: nat) {
    p <= |l| && p <= |log| && forall j :: 0 <= j < p ==> log[j] == l[j]
  }

  /** Every no-op of the leader's first p operations is known. */
  predicate Covers(l: seq<Slot>, gaps: set<nat>, p: nat) {
    p <= |l| && forall op: nat :: op <= p && IsNoOp(l, op) ==> op in gaps
  }

  /** The log grows, and an operation changes only to become the leader's. */
  predicate LogEvolves(l: seq<Slot>, k: Core, k': Core) {
    |k.log| <= |k'.log| && forall j :: 0 <= j < |k.log| ==> KeptAt(l, k, k', j)
  }

  /** And gaps are not forgotten. */
  predicate Evolves(l: seq<Slot>, k: Core, k': Core) {
    LogEvolves(l, k, k') && k.gaps <= k'.gaps
  }

  predicate KeptAt(l: seq<Slot>, k: Core, k': Core, j: nat) {
    j < |k.log| && j < |k'.log| && (k'.log[j] == k.log[j] || (j < |l| && k'.log[j] == l[j]))
  }

  /** Knowing all gaps up to p, a log that reaches p agrees with the leader's up to p. */
  lemma CoversMatch(v: View, stamped: seq<Request>, l: seq<Slot>, k: Core, p: nat)
    requires LogOk(v, stamped, l) && CoreOk(v, stamped, l, k) && Covers(l, k.gaps, p) && p <= |k.log|
    ensures Match(l, k.log, p)
  {
    forall j | 0 <= j < p
      ensures k.log[j] == l[j]
    {
      assert SlotOk(v, stamped, l, j) && SlotOk(v, stamped, k.log, j);
      assert IsNoOp(k.log, j + 1) <==> j + 1 in k.gaps;
      if j + 1 in k.gaps {
        assert GapOk(v, l, j + 1);
      }
    }
  }

  lemma EvolvesTwice(l: seq<Slot>, a: Core, b: Core, c: Core)
    requires LogEvolves(l, a, b) && LogEvolves(l, b, c)
    ensures LogEvolves(l, a, c)
  {
    forall j | 0 <= j < |a.log|
      ensures KeptAt(l, a, c, j)
    {
      assert KeptAt(l, a, b, j) && KeptAt(l, b, c, j);
    }
  }

  lemma PutOk(v: View, stamped: seq<Request>, l: seq<Slot>, k: Core, msgnum: nat, content: Content)
    requires CoreOk(v, stamped, l, k)
    requires msgnum == NumberOf(v, |k.log| + 1) && ContentOk(stamped, msgnum, content)
    requires content.NoOp? ==> GapOk(v, l, |k.log| + 1)
    ensures CoreOk(v, stamped, l, Put(k, msgnum, content)) && Evolves(l, k, Put(k, msgnum, content))
  {
    var k' := Put(k, msgnum, content);
    forall j | 0 <= j < |k'.log|
      ensures SlotOk(v, stamped, k'.log, j)
    {
      if j < |k.log| {
        assert SlotOk(v, stamped, k.log, j);
      }
    }
    forall op: nat | 1 <= op <= |k'.log|
      ensures op in k'.gaps <==> IsNoOp(k'.log, op)
    {
      if op <= |k.log| {
        assert op in k.gaps <==> IsNoOp(k.log, op);
      }
    }
  }

  lemma {:induction false} SettleOk(v: View, stamped: seq<Request>, l: seq<Slot>, k: Core)
    requires CoreOk(v, stamped, l, k)
    ensures CoreOk(v, stamped, l, Settle(k)) && Evolves(l, k, Settle(k)) && Settle(k).gaps == k.gaps
    decreases Above(k)
  {
    if |k.log| + 1 in k.gaps {
      var s := Put(k, k.next, NoOp);
      PutOk(v, stamped, l, k, k.next, NoOp);
      PutConsumes(k);
      SettleOk(v, stamped, l, s);
      assert s.gaps == k.gaps;
      EvolvesTwice(l, k, s, Settle(k));
    }
  }

  lemma PlaceOk(v: View, stamped: seq<Request>, l: seq<Slot>, k: Core, msgnum: nat, content: Content)
    requires CoreOk(v, stamped, l, k)
    requires msgnum == NumberOf(v, |k.log| + 1) && ContentOk(stamped, msgnum, content)
    requires content.NoOp? ==> GapOk(v, l, |k.log| + 1)
    ensures CoreOk(v, stamped, l, Place(k, msgnum, content)) && Evolves(l, k, Place(k, msgnum, content))
    ensures |Place(k, msgnum, content).log| > |k.log|
    ensures Put(k, msgnum, content).gaps == Place(k, msgnum, content).gaps
  {
    var s := Put(k, msgnum, content);
    PutOk(v, stamped, l, k, msgnum, content);
    SettleOk(v, stamped, l, s);
    EvolvesTwice(l, k, s, Settle(s));
  }

  lemma MarkOk(v: View, stamped: seq<Request>, l: seq<Slot>, k: Core, op: nat)
    requires LogOk(v, stamped, l) && CoreOk(v, stamped, l, k) && GapOk(v, l, op) && 1 <= op <= |k.log|
    ensures var k' := MarkNoop(k.(gaps := k.gaps + {op}), op);
            CoreOk(v, stamped, l, k') && Evolves(l, k, k')
  {
    var k' := MarkNoop(k.(gaps := k.gaps + {op}), op);
    assert SlotOk(v, stamped, l, op - 1) && SlotOk(v, stamped, k.log, op - 1);
    assert k'.log[op - 1] == l[op - 1];
    forall j | 0 <= j < |k'.log|
      ensures SlotOk(v, stamped, k'.log, j)
    {
      if j != op - 1 {
        assert SlotOk(v, stamped, k.log, j);
      }
    }
    forall o: nat | 1 <= o <= |k'.log|
      ensures o in k'.gaps <==> IsNoOp(k'.log, o)
    {
      if o != op {
        assert o in k.gaps <==> IsNoOp(k.log, o);
      }
    }
  }

  lemma InstallGapOk(v: View, stamped: seq<Request>, l: seq<Slot>, k: Core, gap: nat)
    requires LogOk(v, stamped, l) && CoreOk(v, stamped, l, k) && GapOk(v, l, gap)
    ensures var k' := InstallGap(k, gap); CoreOk(v, stamped, l, k') && Evolves(l, k, k') && gap in k'.gaps
  {
    if gap !in k.gaps {
      var k1 := k.(gaps := k.gaps + {gap});
      if gap <= |k.log| {
        MarkOk(v, stamped, l, k, gap);
      } else {
        if |k.log| + 1 == gap {
          PlaceOk(v, stamped, l, k1, k1.next, NoOp);
          var k2 := Place(k1, k1.next, NoOp);
          EvolvesTwice(l, k, k1, k2);
          MarkOk(v, stamped, l, k2, gap);
          assert k2.gaps + {gap} == k2.gaps;
          EvolvesTwice(l, k, k2, InstallGap(k, gap));
        }
      }
    }
  }

  lemma {:induction false} InstallGapsOk(v: View, stamped: seq<Request>, l: seq<Slot>, k: Core, gaps: seq<nat>)
    requires LogOk(v, stamped, l) && CoreOk(v, stamped, l, k)
    requires forall i :: 0 <= i < |gaps| ==> gaps[i] >= 1 && GapOk(v, l, gaps[i])
    ensures var k' := InstallGaps(k, gaps);
            CoreOk(v, stamped, l, k') && Evolves(l, k, k') && forall i :: 0 <= i < |gaps| ==> gaps[i] in k'.gaps
    decreases |gaps|
  {
    if gaps != [] {
      var rest, gap := gaps[..|gaps| - 1], gaps[|gaps| - 1];
      InstallGapsOk(v, stamped, l, k, rest);
      var mid := InstallGaps(k, rest);
      InstallGapOk(v, stamped, l, mid, gap);
      EvolvesTwice(l, k, mid, InstallGap(mid, gap));
      forall i | 0 <= i < |gaps|
        ensures gaps[i] in InstallGap(mid, gap).gaps
      {
        if i < |rest| {
          assert rest[i] in mid.gaps;
        }
      }
    }
  }
}

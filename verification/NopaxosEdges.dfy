/** Places where the code promises less than one might expect, each with its exact condition. */
module NopaxosEdges {
  import opened Quorums
  import opened Logs
  import opened Nopaxos

  /** A replica that has processed nothing in a new session. */
  predicate Fresh(v: View, r: Replica) {
    v.next == 1 && r.core == Core(v.base, NoopOps(v.base), 1) && !r.gapCommit && r.transfer == Idle
  }

  /**
   * Two fresh replicas take whatever message arrives first as the session's first. They put the same
   * thing at the same place exactly when they start at the same message number.
   */
  lemma FirstMessageDecides(v: View, r: Replica, r': Replica, a: nat, b: nat, m: nat, m': nat, stamped: seq<Request>)
    requires Fresh(v, r) && Fresh(v, r') && 1 <= m <= |stamped| && 1 <= m' <= |stamped|
    ensures var log := HandleRequest(v, a, r, m, stamped[m - 1]).0.core.log;
            var log' := HandleRequest(v, b, r', m', stamped[m' - 1]).0.core.log;
            |log| == |log'| == |v.base| + 1 && (log == log' <==> m == m')
  {
    assert (v.base + [Slot(m, Op(stamped[m - 1]))])[|v.base|].msgnum == m;
  }

  /** The gaps a replica knows that lie strictly between two operations. */
  ghost predicate GapBetween(k: Core, lo: nat, hi: nat) {
    exists g :: g in k.gaps && lo < g < hi
  }

  lemma ProcessCore(v: View, me: nat, r: Replica, msgnum: nat, content: Content)
    ensures Process(v, me, r, msgnum, content).0.core == Place(r.core, msgnum, content)
  {
  }

  /**
   * Installing transferred entries stops the replica exactly when it already knows a committed gap inside
   * the range, after the first operation: that gap is processed early, and the entry for it then
   * fails the check on its number.
   */
  lemma {:induction false} InstallStops(v: View, me: nat, r: Replica, entries: seq<Slot>)
    ensures var op := |r.core.log| + 1;
            !Install(v, me, r, op, entries).ok <==> GapBetween(r.core, op, op + |entries|)
    decreases |entries|
  {
    var op := |r.core.log| + 1;
    if entries != [] {
      var (s, out) := Process(v, me, r, entries[0].msgnum, entries[0].content);
      var k := Put(r.core, entries[0].msgnum, entries[0].content);
      ProcessCore(v, me, r, entries[0].msgnum, entries[0].content);
      SettleGrows(k);
      if op + 1 in k.gaps {
        assert op + 1 in r.core.gaps;
        assert Install(v, me, s, op + 1, entries[1..]) == Installed(s, {}, |entries| == 1);
      } else {
        InstallStops(v, me, s, entries[1..]);
      }
    }
  }

  /** So a transfer reply stops its receiver exactly when it is not stale and covers a known gap. */
  lemma TransferStops(v: View, me: nat, r: Replica, begin: nat, entries: seq<Slot>)
    requires 1 <= begin <= |r.core.log| + 1
    ensures !HandleStateTransferReply(v, me, r, begin, entries).ok <==>
              GapBetween(r.core, |r.core.log| + 1, begin + |entries|)
  {
    var skip := |r.core.log| + 1 - begin;
    if |entries| > skip {
      InstallStops(v, me, r, entries[skip..]);
    }
  }

  lemma {:induction false} InstallGapsAll(k: Core, gaps: seq<nat>)
    requires forall i :: 0 <= i < |gaps| ==> gaps[i] >= 1
    ensures InstallGaps(k, gaps).gaps == k.gaps + set g | g in gaps
    decreases |gaps|
  {
    if gaps != [] {
      var k1, gap := InstallGaps(k, gaps[..|gaps| - 1]), gaps[|gaps| - 1];
      InstallGapsAll(k, gaps[..|gaps| - 1]);
      assert gaps == gaps[..|gaps| - 1] + [gap];
      var k2 := k1.(gaps := k1.gaps + {gap});
      SettleGrows(Put(k2, k2.next, NoOp));
      assert InstallGap(k1, gap).gaps == k1.gaps + {gap};
    }
  }

  lemma AsksForRest(v: View, me: nat, r: Replica, point: nat, gaps: seq<nat>)
    requires (forall i :: 0 <= i < |gaps| ==> gaps[i] >= 1) && r.committed < point
    requires 1 <= point - |InstallGaps(r.core, gaps).log| <= MAX_SYNC_TRANSFER_OPS
    ensures var (s, out) := HandleSyncPrepare(v, me, r, point, gaps);
            && s.core == InstallGaps(r.core, gaps) && s.transfer == Transfer(|s.core.log| + 1, point + 1, true)
            && StateTransferRequest(me, |s.core.log| + 1, point + 1) in out
  {
    AdvanceCore(v, me, r.(prepares := r.prepares + {point}), InstallGaps(r.core, gaps));
  }

  /** A gap that was known or is listed lies in the range. */
  ghost predicate GapKnown(known: set<nat>, listed: seq<nat>, lo: nat, hi: nat) {
    exists g :: (g in known || g in listed) && lo < g <= hi
  }

  /**
   * A follower is told of a sync point, asks for what it misses, and the leader answers. When nothing comes
   * in between, the answer stops it exactly when it knew or was just told of a gap beyond its next operation.
   */
  lemma SyncTransferStops(v: View, me: nat, r: Replica, lead: Replica, point: nat, gaps: seq<nat>)
    requires (forall i :: 0 <= i < |gaps| ==> gaps[i] >= 1) && r.committed < point <= |lead.core.log|
    requires 1 <= point - |InstallGaps(r.core, gaps).log| <= MAX_SYNC_TRANSFER_OPS
    ensures var (s, out) := HandleSyncPrepare(v, me, r, point, gaps);
            var next := |s.core.log| + 1;
            && next <= point && StateTransferRequest(me, next, point + 1) in out
            && var entries := lead.core.log[next - 1..point];
               && HandleStateTransferRequest(lead, me, next, point + 1) == {StateTransferReply(me, next, entries)}
               && (!HandleStateTransferReply(v, me, s, next, entries).ok <==> GapKnown(r.core.gaps, gaps, next, point))
  {
    AsksForRest(v, me, r, point, gaps);
    InstallGapsAll(r.core, gaps);
    var s := HandleSyncPrepare(v, me, r, point, gaps).0;
    var next := |s.core.log| + 1;
    var entries := lead.core.log[next - 1..point];
    TransferStops(v, me, s, next, entries);
    assert GapBetween(s.core, next, next + |entries|) <==> GapKnown(r.core.gaps, gaps, next, point) by {
      assert forall g :: g in s.core.gaps <==> g in r.core.gaps || g in gaps;
    }
  }

  // The end of a transfer.

  /** Nothing has come of the transfer yet: it is still pending and nothing was committed or acknowledged. */
  ghost predicate Pending(r: Replica, res: Installed) {
    && res.replica.transfer == r.transfer && res.replica.committed == r.committed
    && forall m :: m in res.out ==> !m.SyncPrepareReply?
  }

  /** The transfer has ended, and its sync point is committed or acknowledged. */
  predicate Ended(me: nat, r: Replica, res: Installed)
    requires r.transfer.Transfer? && r.transfer.end >= 1
  {
    && res.replica.transfer == r.transfer.(requested := false)
    && var point := r.transfer.end - 1;
       if point in r.commits then res.replica.committed >= point else SyncPrepareReply(point, me) in res.out
  }

  lemma ProcessPending(v: View, me: nat, r: Replica, msgnum: nat, content: Content)
    requires !Crosses(r, Place(r.core, msgnum, content))
    ensures var (s, out) := Process(v, me, r, msgnum, content);
            Pending(r, Installed(s, out, true)) && s.commits == r.commits
  {
  }

  lemma ProcessEnded(v: View, me: nat, r: Replica, msgnum: nat, content: Content)
    requires Crosses(r, Place(r.core, msgnum, content))
    ensures var (s, out) := Process(v, me, r, msgnum, content); Ended(me, r, Installed(s, out, true))
  {
  }

  lemma {:induction false} InstallToEnd(v: View, me: nat, r: Replica, entries: seq<Slot>)
    requires entries != [] && r.transfer.Transfer? && r.transfer.end == |r.core.log| + 1 + |entries|
    requires !GapBetween(r.core, |r.core.log| + 1, r.transfer.end)
    ensures var res := Install(v, me, r, |r.core.log| + 1, entries);
            if r.transfer.end in r.core.gaps then Ended(me, r, res) else Pending(r, res)
    decreases |entries|
  {
    var op, msgnum, content := |r.core.log| + 1, entries[0].msgnum, entries[0].content;
    var k := Put(r.core, msgnum, content);
    assert |k.log| == op && forall g :: g in k.gaps <==> g in r.core.gaps || (g == op && IsNoOp(k.log, op));
    SettleGrows(k);
    ProcessCore(v, me, r, msgnum, content);
    var (s, out) := Process(v, me, r, msgnum, content);
    var res, rest := Install(v, me, r, op, entries), Install(v, me, s, op + 1, entries[1..]);
    assert res == rest.(out := out + rest.out);
    if |entries| > 1 {
      assert op + 1 !in k.gaps && Place(r.core, msgnum, content) == k;
      ProcessPending(v, me, r, msgnum, content);
      InstallToEnd(v, me, s, entries[1..]);
    } else {
      assert res == Installed(s, out, true) by {
        assert rest == Installed(s, {}, true) && out + {} == out;
      }
      if op + 1 in r.core.gaps {
        ProcessEnded(v, me, r, msgnum, content);
      } else {
        ProcessPending(v, me, r, msgnum, content);
      }
    }
  }

  /**
   * The end of a transfer is exclusive and tested for equality. So a reply with everything that was asked for
   * leaves the transfer pending, without commit or acknowledgement, unless the operation after it is a known gap.
   */
  lemma TransferEndsLate(v: View, me: nat, r: Replica, begin: nat, entries: seq<Slot>)
    requires 1 <= begin <= |r.core.log| + 1 && r.transfer.Transfer?
    requires |r.core.log| + 1 < r.transfer.end == begin + |entries|
    requires HandleStateTransferReply(v, me, r, begin, entries).ok
    ensures var res := HandleStateTransferReply(v, me, r, begin, entries);
            if r.transfer.end in r.core.gaps then Ended(me, r, res) else Pending(r, res)
  {
    TransferStops(v, me, r, begin, entries);
    InstallToEnd(v, me, r, entries[|r.core.log| + 1 - begin..]);
  }

  /** A follower that misses one operation gets it and says nothing, with its transfer still open. */
  lemma TransferLeftOpen(v: View, me: nat, r: Replica, slot: Slot, point: nat)
    requires point == |r.core.log| + 1 && r.core.gaps == {} && r.committed < point
    ensures var s := HandleSyncPrepare(v, me, r, point, []).0;
            && s.core == r.core && s.transfer == Transfer(point, point + 1, true)
            && var res := HandleStateTransferReply(v, me, s, point, [slot]); res.ok && Pending(s, res)
  {
    AsksForRest(v, me, r, point, []);
    var s := HandleSyncPrepare(v, me, r, point, []).0;
    TransferStops(v, me, s, point, [slot]);
    TransferEndsLate(v, me, s, point, [slot]);
  }
}

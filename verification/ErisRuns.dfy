/** Eris over whole runs of an epoch: one fate per transaction, and no drop without promises. */
module ErisRuns {
  import opened Quorums
  import opened Eris
  import opened ErisSafety

  ghost predicate NextAt(e: Epoch, run: seq<System>, steps: seq<Step>, k: nat)
    requires k < |steps| && |run| == |steps| + 1
  {
    Next(e, run[k], run[k + 1], steps[k])
  }

  ghost predicate Run(e: Epoch, run: seq<System>, steps: seq<Step>) {
    && |run| == |steps| + 1 && Init(e, run[0])
    && forall k :: 0 <= k < |steps| ==> NextAt(e, run, steps, k)
  }

  lemma {:induction false} Reachable(e: Epoch, run: seq<System>, steps: seq<Step>, k: nat)
    requires Run(e, run, steps) && k < |run|
    ensures Inv(e, run[k])
    decreases k
  {
    if k == 0 {
    } else {
      Reachable(e, run, steps, k - 1);
      assert NextAt(e, run, steps, k - 1);
      InvNext(e, run[k - 1], run[k], steps[k - 1]);
    }
  }

  /** A decision stands: no stamp ever changes its fate. */
  lemma {:induction false} DecisionsStand(e: Epoch, run: seq<System>, steps: seq<Step>, j: nat, k: nat)
    requires Run(e, run, steps) && j <= k < |run|
    ensures Grows(run[j].coord.results, run[k].coord.results)
    decreases k
  {
    if j < k {
      DecisionsStand(e, run, steps, j, k - 1);
      Reachable(e, run, steps, k - 1);
      assert NextAt(e, run, steps, k - 1);
      InvNext(e, run[k - 1], run[k], steps[k - 1]);
    }
  }

  /** One fate: no transaction has one stamp found and another dropped, not even at different times. */
  lemma OneFate(e: Epoch, run: seq<System>, steps: seq<Step>, j: nat, k: nat, t: Txn, s: Stamp, s': Stamp)
    requires Run(e, run, steps) && j < |run| && k < |run| && t in e.issued && s in t.stamps && s' in t.stamps
    requires s in run[j].coord.results && run[j].coord.results[s].Found?
    ensures !(s' in run[k].coord.results && run[k].coord.results[s'] == Dropped)
  {
    var m := if j < k then k else j;
    Reachable(e, run, steps, m);
    DecisionsStand(e, run, steps, j, m);
    DecisionsStand(e, run, steps, k, m);
  }

  /** The three drop sets of every server are disjoint. */
  lemma DropSetsDisjoint(e: Epoch, run: seq<System>, steps: seq<Step>, k: nat, i: nat)
    requires Run(e, run, steps) && k < |run| && i < |run[k].servers|
    ensures var v := run[k].servers[i]; v.temp !! v.perm && v.temp !! v.un && v.perm !! v.un
  {
    Reachable(e, run, steps, k);
    var d, v := run[k].coord.results, run[k].servers[i];
    assert ServerOk(e, d, v);
    forall s | s in v.perm
      ensures s !in v.un
    {
      assert IsDroppedIn(d, s);
    }
  }

  /**
   * The conflict assertions of the servers, except the one on checks, hold for whatever message arrives
   * whenever: on found and dropped messages, one by one while drop sets are merged, and after merging.
   */
  lemma AssertionsHold(e: Epoch, run: seq<System>, steps: seq<Step>, k: nat, i: nat, m: Message)
    requires Run(e, run, steps) && k < |run| && i < |run[k].servers| && m in run[k].sent
    ensures var v := run[k].servers[i];
            && (m.TxnFound? && m.shard == v.shard ==> UnDropAllowed(v, m.txn))
            && (m.DropTxn? ==> PermDropAllowed(v, m.stamp))
            && (m.GapReply? && m.shard == v.shard && m.msgnum == |v.log| + 1 && NextStamp(v) in v.un ==>
                  m.entry.Processed?)
            && (m.Drops? && m.shard == v.shard ==>
                  && Compatible(v, m.perm, m.un) && (forall t :: t in m.un ==> t in e.issued)
                  && MergeAllowed(v, m.temp, m.perm, m.un)
                  && var v' := MergeDrops(v, m.temp, m.perm, m.un); v'.temp !! v'.perm && v'.temp !! v'.un)
            && (NextStamp(v) in v.un ==> NextStamp(v) in v.unMsgs && NextStamp(v) !in v.perm)
  {
    Reachable(e, run, steps, k);
    var d, v := run[k].coord.results, run[k].servers[i];
    assert ServerOk(e, d, v) && MessageOk(e, d, m);
    if m.TxnFound? && m.shard == v.shard {
      UnDropOk(e, d, v, m.txn);
    } else if m.DropTxn? {
      PermDropOk(e, d, v, m.stamp);
    } else if m.GapReply? && m.shard == v.shard && m.msgnum == |v.log| + 1 {
      PutOk(e, d, v, m.entry);
    } else if m.Drops? && m.shard == v.shard {
      MergeIsAllowed(e, d, v, m.temp, m.perm, m.un);
    }
    DropSetsDisjoint(e, run, steps, k, i);
  }

  // The numbers of other shards.

  /**
   * The assertion on a new entry's numbers: they are above those of every entry before it, even one that was
   * dropped since.
   */
  lemma NumbersRise(e: Epoch, run: seq<System>, steps: seq<Step>, j: nat, k: nat, i: nat, m: nat, n: nat)
    requires Run(e, run, steps) && Ordered(e.issued) && j < |run| && k < |run|
    requires i < |run[j].servers| && i < |run[k].servers| && run[j].servers[i].shard == run[k].servers[i].shard
    requires m < n && m < |run[j].servers[i].log| && n < |run[k].servers[i].log|
    requires run[j].servers[i].log[m].Processed? && run[k].servers[i].log[n].Processed?
    ensures Before(run[j].servers[i].log[m].txn, run[k].servers[i].log[n].txn)
  {
    Reachable(e, run, steps, j);
    Reachable(e, run, steps, k);
    var v, w := run[j].servers[i], run[k].servers[i];
    assert ServerOk(e, run[j].coord.results, v) && LogAt(e, run[j].coord.results, v, m + 1);
    assert ServerOk(e, run[k].coord.results, w) && LogAt(e, run[k].coord.results, w, n + 1);
  }

  /**
   * Two servers of one shard never process different transactions at the same position; and where one of
   * them skips a transaction another processed, no server of any shard has it as found, ever.
   */
  lemma LogsAgree(e: Epoch, run: seq<System>, steps: seq<Step>, k: nat, a: nat, b: nat, m: nat)
    requires Run(e, run, steps) && k < |run| && a < |run[k].servers| && b < |run[k].servers|
    requires run[k].servers[a].shard == run[k].servers[b].shard
    requires 1 <= m <= |run[k].servers[a].log| && m <= |run[k].servers[b].log|
    requires run[k].servers[a].log[m - 1].Processed?
    ensures var x, y := run[k].servers[a].log[m - 1], run[k].servers[b].log[m - 1];
            || y == x
            || (y == Skipped &&
                forall s, i :: s in x.txn.stamps && 0 <= i < |run[k].servers| ==> s !in run[k].servers[i].un)
  {
    Reachable(e, run, steps, k);
    var d := run[k].coord.results;
    var va, vb := run[k].servers[a], run[k].servers[b];
    assert ServerOk(e, d, va) && LogAt(e, d, va, m) && ServerOk(e, d, vb) && LogAt(e, d, vb, m);
    var own := Stamp(va.shard, m);
    if vb.log[m - 1] == Skipped {
      forall s, i | s in va.log[m - 1].txn.stamps && 0 <= i < |run[k].servers|
        ensures s !in run[k].servers[i].un
      {
        assert ServerOk(e, d, run[k].servers[i]);
      }
    }
  }

  // Promises.

  /** Promises of one shard on one stamp: same view, one per replica, all actually made. */
  ghost predicate PromisesOk(sent: set<Message>, s: Stamp, shard: nat, ps: set<Promise>) {
    && (forall p :: p in ps ==> TempDropped(s, shard, p.replica, p.view) in sent)
    && (forall p, q :: p in ps && q in ps ==> p.view == q.view)
    && (forall p, q :: p in ps && q in ps && p.replica == q.replica ==> p == q)
  }

  ghost predicate RecordsOk(sent: set<Message>, k: Coordinator) {
    forall s, shard :: s in k.records && shard in k.records[s] ==> PromisesOk(sent, s, shard, k.records[s][shard])
  }

  /** In this shard a quorum of replicas, the leader among them, promised in one view to drop the stamp. */
  ghost predicate ShardPromised(c: Config, sent: set<Message>, s: Stamp, shard: nat)
    requires c.n > 0
  {
    exists ps: set<Promise> :: PromisesOk(sent, s, shard, ps) && EnoughPromises(c, ps)
  }

  ghost predicate Promised(e: Epoch, sent: set<Message>, s: Stamp)
    requires e.c.n > 0
  {
    forall shard :: 0 <= shard < e.shards ==> ShardPromised(e.c, sent, s, shard)
  }

  /** The stamp, or another stamp of its transaction, was promised away in every shard. */
  ghost predicate Justified(e: Epoch, sent: set<Message>, s: Stamp)
    requires e.c.n > 0
  {
    Promised(e, sent, s) || exists t, s' :: t in e.issued && s in t.stamps && s' in t.stamps && Promised(e, sent, s')
  }

  ghost predicate PromiseInv(e: Epoch, s: System)
    requires e.c.n > 0
  {
    RecordsOk(s.sent, s.coord) && forall x :: IsDroppedIn(s.coord.results, x) ==> Justified(e, s.sent, x)
  }

  lemma PromisedStable(e: Epoch, sent: set<Message>, sent': set<Message>, s: Stamp)
    requires e.c.n > 0 && sent <= sent' && Promised(e, sent, s)
    ensures Promised(e, sent', s)
  {
    forall shard | 0 <= shard < e.shards
      ensures ShardPromised(e.c, sent', s, shard)
    {
      assert ShardPromised(e.c, sent, s, shard);
      var ps: set<Promise> :| PromisesOk(sent, s, shard, ps) && EnoughPromises(e.c, ps);
    }
  }

  lemma JustifiedStable(e: Epoch, sent: set<Message>, sent': set<Message>, s: Stamp)
    requires e.c.n > 0 && sent <= sent' && Justified(e, sent, s)
    ensures Justified(e, sent', s)
  {
    if Promised(e, sent, s) {
      PromisedStable(e, sent, sent', s);
    } else {
      var t, s' :| t in e.issued && s in t.stamps && s' in t.stamps && Promised(e, sent, s');
      PromisedStable(e, sent, sent', s');
    }
  }

  lemma AddRecordOk(sent: set<Message>, k: Coordinator, s: Stamp, shard: nat, p: Promise)
    requires RecordsOk(sent, k) && TempDropped(s, shard, p.replica, p.view) in sent
    ensures RecordsOk(sent, AddDropRecord(k, s, shard, p))
  {
  }

  lemma DroppedIsPromised(e: Epoch, sent: set<Message>, k: Coordinator, s: Stamp)
    requires e.c.n > 0 && RecordsOk(sent, k) && IsDropped(e.c, e.shards, k, s)
    ensures Promised(e, sent, s)
  {
    forall shard | 0 <= shard < e.shards
      ensures ShardPromised(e.c, sent, s, shard)
    {
      assert PromisesOk(sent, s, shard, k.records[s][shard]);
    }
  }

  /** The coordinator's step. */
  lemma DecideKeeps(e: Epoch, s: System, m: Message)
    requires ValidEpoch(e) && MessagesOk(e, s.coord.results, s.sent) && PromiseInv(e, s) && m in s.sent
    ensures var (k, out) := CoordinatorReceives(e, s.coord, m); PromiseInv(e, s.(coord := k, sent := s.sent + out))
  {
    var (k, out) := CoordinatorReceives(e, s.coord, m);
    assert RecordsOk(s.sent, k) && forall x :: IsDroppedIn(k.results, x) ==> Justified(e, s.sent, x) by {
      match m
      case TxnReceived(t) => ReceivedJustified(e, s, t);
      case TempDropped(x, shard, replica, view) => TempDropJustified(e, s, x, shard, Promise(replica, view));
      case _ =>
    }
    forall x | IsDroppedIn(k.results, x)
      ensures Justified(e, s.sent + out, x)
    {
      JustifiedStable(e, s.sent, s.sent + out, x);
    }
  }

  lemma TempDropJustified(e: Epoch, s: System, x: Stamp, shard: nat, p: Promise)
    requires e.c.n > 0 && PromiseInv(e, s) && TempDropped(x, shard, p.replica, p.view) in s.sent
    ensures var k := HandleTempDropped(e.c, e.shards, s.coord, x, shard, p).0;
            RecordsOk(s.sent, k) && forall y :: IsDroppedIn(k.results, y) ==> Justified(e, s.sent, y)
  {
    AddRecordOk(s.sent, s.coord, x, shard, p);
    var k1 := AddDropRecord(s.coord, x, shard, p);
    if x !in s.coord.results && IsDropped(e.c, e.shards, k1, x) {
      DroppedIsPromised(e, s.sent, k1, x);
    }
  }

  lemma ReceivedJustified(e: Epoch, s: System, t: Txn)
    requires e.c.n > 0 && PromiseInv(e, s) && t in e.issued
    requires ValidEpoch(e)
    ensures var k := HandleTxnReceived(s.coord, t).0;
            RecordsOk(s.sent, k) && forall x :: IsDroppedIn(k.results, x) ==> Justified(e, s.sent, x)
  {
    var k := HandleTxnReceived(s.coord, t).0;
    forall x | IsDroppedIn(k.results, x)
      ensures Justified(e, s.sent, x)
    {
      if !IsDroppedIn(s.coord.results, x) {
        assert x in t.stamps && SomeDropped(s.coord, t);
        var y :| y in t.stamps && y in s.coord.results && s.coord.results[y] == Dropped;
        SiblingJustified(e, s.sent, t, y, x);
      }
    }
  }

  /** What justifies dropping one stamp of a transaction justifies dropping the others. */
  lemma SiblingJustified(e: Epoch, sent: set<Message>, t: Txn, y: Stamp, x: Stamp)
    requires ValidEpoch(e) && t in e.issued && y in t.stamps && x in t.stamps && Justified(e, sent, y)
    ensures Justified(e, sent, x)
  {
  }

  lemma {:induction false} ReachablePromises(e: Epoch, run: seq<System>, steps: seq<Step>, k: nat)
    requires Run(e, run, steps) && k < |run|
    ensures e.c.n > 0 && PromiseInv(e, run[k])
    decreases k
  {
    if k > 0 {
      ReachablePromises(e, run, steps, k - 1);
      Reachable(e, run, steps, k - 1);
      assert NextAt(e, run, steps, k - 1);
      var s, s', step := run[k - 1], run[k], steps[k - 1];
      if step.Decide? {
        DecideKeeps(e, s, step.m);
      } else {
        assert s'.coord == s.coord && s.sent <= s'.sent;
        OthersKeep(e, s, s');
      }
    }
  }

  lemma OthersKeep(e: Epoch, s: System, s': System)
    requires e.c.n > 0 && PromiseInv(e, s) && s'.coord == s.coord && s.sent <= s'.sent
    ensures PromiseInv(e, s')
  {
    forall x | IsDroppedIn(s'.coord.results, x)
      ensures Justified(e, s'.sent, x)
    {
      JustifiedStable(e, s.sent, s'.sent, x);
    }
  }

  /**
   * Nothing is dropped without promises: when a stamp is dropped, in every shard a quorum of replicas with
   * that view's leader has promised, in one view, to drop it or another stamp of its transaction.
   */
  lemma NoDropWithoutPromises(e: Epoch, run: seq<System>, steps: seq<Step>, k: nat, s: Stamp)
    requires Run(e, run, steps) && k < |run| && IsDroppedIn(run[k].coord.results, s)
    ensures e.c.n > 0 && Justified(e, run[k].sent, s)
  {
    ReachablePromises(e, run, steps, k);
  }
}

/**
 * The assertion on checks in Eris: a server that promised to drop a stamp of another shard may still process
 * the transaction under its own stamp, and the next check of the promised one stops it.
 */
module ErisChecks {
  import opened Quorums
  import opened Eris
  import opened ErisSafety
  import opened ErisRuns

  /** The server has passed, and not dropped, the transaction that carries the stamp. */
  ghost predicate Passed(e: Epoch, v: Server, s: Stamp) {
    exists t, o :: t in e.issued && s in t.stamps && o in t.stamps && PassedUnder(v, o)
  }

  predicate PassedUnder(v: Server, o: Stamp) {
    o.shard == v.shard && 1 <= o.msgnum <= |v.log| && o !in v.perm
  }

  lemma PassedIsLogged(e: Epoch, d: Decisions, v: Server, s: Stamp)
    requires ValidEpoch(e) && ServerOk(e, d, v)
    ensures Lookup(v.log, s).Some? <==> Passed(e, v, s)
  {
    var r := Lookup(v.log, s);
    if r.Some? {
      var i :| 0 <= i < |v.log| && v.log[i] == Processed(r.value);
      assert LogAt(e, d, v, i + 1);
      assert PassedUnder(v, Stamp(v.shard, i + 1));
    }
    if Passed(e, v, s) {
      var t, o :| t in e.issued && s in t.stamps && o in t.stamps && PassedUnder(v, o);
      assert LogAt(e, d, v, o.msgnum);
      assert v.log[o.msgnum - 1] == Processed(t);
    }
  }

  /** Exactly when a check stops a server: it promised the stamp, and passed the transaction without dropping it. */
  lemma CheckStops(e: Epoch, run: seq<System>, steps: seq<Step>, k: nat, i: nat, s: Stamp)
    requires Run(e, run, steps) && k < |run| && i < |run[k].servers|
    ensures var v := run[k].servers[i]; !CheckAllowed(v, s) <==> s in v.temp && Passed(e, v, s)
  {
    Reachable(e, run, steps, k);
    PassedIsLogged(e, run[k].coord.results, run[k].servers[i], s);
  }

  /** Up to k the server merged nobody's drop sets. */
  predicate NothingMerged(steps: seq<Step>, k: nat, i: nat)
    requires k <= |steps|
  {
    forall j :: 0 <= j < k ==> !(steps[j].Deliver? && steps[j].i == i && steps[j].m.Drops?)
  }

  /** Of its own shard the server has promised only what lies ahead. */
  predicate PromisesAhead(v: Server) {
    forall s :: s in v.temp && s.shard == v.shard ==> !(1 <= s.msgnum <= |v.log|)
  }

  lemma {:induction false} SettleAhead(v: Server)
    requires PromisesAhead(v)
    ensures PromisesAhead(Settle(v))
    decreases Ahead(v)
  {
    if Decided(v).Some? {
      PutConsumes(v);
      SettleAhead(Put(v, Decided(v).value));
    }
  }

  lemma ReceivesAhead(e: Epoch, d: Decisions, v: Server, m: Message)
    requires ServerOk(e, d, v) && PromisesAhead(v) && !m.Drops?
    ensures PromisesAhead(ServerReceives(v, m).0)
  {
    match m
    case Check(s) =>
      assert LogAt(e, d, v, s.msgnum);
      if s.shard == v.shard && 1 <= s.msgnum <= |v.log| && v.log[s.msgnum - 1].Processed? {
        assert Processed(v.log[s.msgnum - 1].txn) in v.log;
      }
    case TxnFound(shard, t) => SettleAhead(Put(InstallUnDrop(v, t), Processed(t)));
    case DropTxn(s) => SettleAhead(Put(InstallPermDrop(v, s), Skipped));
    case GapReply(shard, msgnum, x) => SettleAhead(Put(v, x));
    case _ =>
  }

  lemma NextAhead(e: Epoch, s: System, s': System, step: Step, i: nat)
    requires Inv(e, s) && Next(e, s, s', step) && i < |s.servers| && PromisesAhead(s.servers[i])
    requires !(step.Deliver? && step.i == i && step.m.Drops?)
    ensures |s'.servers| == |s.servers| && PromisesAhead(s'.servers[i])
  {
    var v := s.servers[i];
    assert ServerOk(e, s.coord.results, v);
    if step.Arrive? && step.i == i {
      SettleAhead(Put(v, Processed(step.txn)));
    } else if step.Deliver? && step.i == i {
      ReceivesAhead(e, s.coord.results, v, step.m);
    }
  }

  lemma {:induction false} OwnPromisesAhead(e: Epoch, run: seq<System>, steps: seq<Step>, k: nat, i: nat)
    requires Run(e, run, steps) && k < |run| && i < |run[k].servers| && NothingMerged(steps, k, i)
    ensures PromisesAhead(run[k].servers[i])
    decreases k
  {
    if k > 0 {
      assert NextAt(e, run, steps, k - 1);
      OwnPromisesAhead(e, run, steps, k - 1, i);
      Reachable(e, run, steps, k - 1);
      NextAhead(e, run[k - 1], run[k], steps[k - 1], i);
    }
  }

  /**
   * Without merged drop sets a check stops a server exactly when the promised stamp is another shard's and the
   * transaction has since been processed under the server's own.
   */
  lemma CheckStopsForeign(e: Epoch, run: seq<System>, steps: seq<Step>, k: nat, i: nat, s: Stamp)
    requires Run(e, run, steps) && k < |run| && i < |run[k].servers| && NothingMerged(steps, k, i)
    ensures var v := run[k].servers[i];
            !CheckAllowed(v, s) <==> s in v.temp && s.shard != v.shard && Passed(e, v, s)
  {
    CheckStops(e, run, steps, k, i, s);
    OwnPromisesAhead(e, run, steps, k, i);
    Reachable(e, run, steps, k);
  }

  const ForeignStamp := Stamp(1, 1)

  const SharedTxn := Txn(0, [Stamp(0, 1), ForeignStamp])

  /** A server of shard 0 with nothing but these promises and this log. */
  function ServerWith(temp: set<Stamp>, log: seq<Outcome>): Server {
    Server(0, 0, 0, temp, {}, {}, map[], log)
  }

  lemma SharedEpoch()
    ensures ValidEpoch(Epoch(Config(3, 1), 2, {SharedTxn}))
  {
  }

  lemma FirstPromise(e: Epoch, k: Coordinator, sent: set<Message>)
    requires Check(ForeignStamp) in sent
    ensures Next(e, System(k, [ServerWith({}, [])], sent),
                 System(k, [ServerWith({ForeignStamp}, [])], sent + {TempDropped(ForeignStamp, 0, 0, 0)}),
                 Deliver(0, Check(ForeignStamp)))
  {
    var v, v' := ServerWith({}, []), ServerWith({ForeignStamp}, []);
    assert v.temp + {ForeignStamp} == {ForeignStamp} && [v][0 := v'] == [v'];
  }

  lemma ThenProcessed(e: Epoch, k: Coordinator, sent: set<Message>)
    requires SharedTxn in e.issued
    ensures Next(e, System(k, [ServerWith({ForeignStamp}, [])], sent),
                 System(k, [ServerWith({ForeignStamp}, [Processed(SharedTxn)])], sent), Arrive(0, SharedTxn))
  {
    var v, v' := ServerWith({ForeignStamp}, []), ServerWith({ForeignStamp}, [Processed(SharedTxn)]);
    assert NextStamp(v) == SharedTxn.stamps[0] && Put(v, Processed(SharedTxn)) == v' && Settle(v') == v';
    assert [v][0 := v'] == [v'];
  }

  /** A run of five states after which a check that is still in the network stops the server. */
  lemma CheckFails() returns (e: Epoch, run: seq<System>, steps: seq<Step>)
    ensures Run(e, run, steps) && |run| == 5 && run[4].servers == [ServerWith({ForeignStamp}, [Processed(SharedTxn)])]
    ensures Check(ForeignStamp) in run[4].sent && !CheckAllowed(run[4].servers[0], ForeignStamp)
  {
    e := Epoch(Config(3, 1), 2, {SharedTxn});
    var k, v, ask := Coordinator(map[], map[]), ServerWith({}, []), InfoRequest(ForeignStamp);
    var v1, v2 := ServerWith({ForeignStamp}, []), ServerWith({ForeignStamp}, [Processed(SharedTxn)]);
    var sent1 := {} + {ask};
    var sent2 := sent1 + HandleInfoRequest(k, ForeignStamp);
    var sent3 := sent2 + {TempDropped(ForeignStamp, 0, 0, 0)};
    steps := [Ask(ForeignStamp), Decide(ask), Deliver(0, Check(ForeignStamp)), Arrive(0, SharedTxn)];
    run := [System(k, [v], {}), System(k, [v], sent1), System(k, [v], sent2),
            System(k, [v1], sent3), System(k, [v2], sent3)];
    SharedEpoch();
    assert Init(e, run[0]);
    FirstPromise(e, k, sent2);
    ThenProcessed(e, k, sent3);
    assert NextAt(e, run, steps, 0) && NextAt(e, run, steps, 1) && NextAt(e, run, steps, 2) && NextAt(e, run, steps, 3);
  }
}

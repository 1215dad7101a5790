/**
 * What every step of Eris does, over runs: which answer a server gives to a check, how far a message takes its log,
 * and exactly when the coordinator finds or drops a transaction.
 */
module ErisEffects {
  import opened Quorums
  import opened Eris
  import opened ErisSafety
  import opened ErisRuns
  import opened ErisChecks

  // Checks.

  /** The transaction the sequencer gave this stamp. */
  ghost predicate Carries(e: Epoch, s: Stamp, t: Txn) {
    t in e.issued && s in t.stamps
  }

  /** A server answers with the transaction, and with it alone. */
  ghost predicate Answers(e: Epoch, s: Stamp, out: set<Message>) {
    exists t :: Carries(e, s, t) && out == {TxnReceived(t)}
  }

  lemma CheckHandled(e: Epoch, d: Decisions, v: Server, s: Stamp)
    requires ValidEpoch(e) && ServerOk(e, d, v)
    ensures var (v', out) := HandleCheck(v, s);
            var silent := s in v.perm || s in v.un || (s in v.temp && Passed(e, v, s));
            && (silent ==> v' == v && out == {})
            && (!silent && Passed(e, v, s) ==> v' == v && Answers(e, s, out))
            && (!silent && !Passed(e, v, s) ==>
                  v' == v.(temp := v.temp + {s}) && out == {TempDropped(s, v.shard, v.replica, v.view)})
  {
    PassedIsLogged(e, d, v, s);
    var r := Lookup(v.log, s);
    if r.Some? {
      var i :| 0 <= i < |v.log| && v.log[i] == Processed(r.value);
      assert LogAt(e, d, v, i + 1);
      assert Carries(e, s, r.value);
    }
  }

  /**
   * A server answers a check with the transaction exactly when it has passed it, and promises to drop the stamp,
   * which it then remembers, exactly when it has not; it is silent about what is decided, and when it promised to
   * drop what it has passed since.
   */
  lemma CheckEffect(e: Epoch, run: seq<System>, steps: seq<Step>, k: nat, i: nat, s: Stamp)
    requires Run(e, run, steps) && k < |steps| && steps[k] == Deliver(i, Check(s))
    ensures i < |run[k].servers| == |run[k + 1].servers|
    ensures var v, v', sent, sent' := run[k].servers[i], run[k + 1].servers[i], run[k].sent, run[k + 1].sent;
            var silent := s in v.perm || s in v.un || (s in v.temp && Passed(e, v, s));
            && (silent ==> v' == v && sent' == sent)
            && (!silent && Passed(e, v, s) ==>
                  v' == v && exists out :: Answers(e, s, out) && sent' == sent + out)
            && (!silent && !Passed(e, v, s) ==>
                  && v' == v.(temp := v.temp + {s})
                  && sent' == sent + {TempDropped(s, v.shard, v.replica, v.view)})
  {
    Reachable(e, run, steps, k);
    assert NextAt(e, run, steps, k);
    CheckHandled(e, run[k].coord.results, run[k].servers[i], s);
  }

  /** The step in which a server made the promise: it was asked, had not passed the transaction, and remembers. */
  ghost predicate PromisedAt(e: Epoch, run: seq<System>, steps: seq<Step>, j: nat, m: Message)
    requires j < |steps| < |run| && m.TempDropped?
  {
    var step := steps[j];
    && step.Deliver? && step.m == Check(m.stamp) && step.i < |run[j].servers| == |run[j + 1].servers|
    && var v, v' := run[j].servers[step.i], run[j + 1].servers[step.i];
       && v.shard == m.shard && v.replica == m.replica && v.view == m.view
       && !Passed(e, v, m.stamp) && m.stamp in v'.temp && v'.log == v.log
  }

  lemma NewPromise(e: Epoch, run: seq<System>, steps: seq<Step>, k: nat, m: Message)
    requires Run(e, run, steps) && k < |steps| && m.TempDropped? && m in run[k + 1].sent && m !in run[k].sent
    ensures PromisedAt(e, run, steps, k, m)
  {
    assert NextAt(e, run, steps, k);
    var step := steps[k];
    if step.Deliver? && step.m.Check? {
      CheckEffect(e, run, steps, k, step.i, step.m.stamp);
    }
  }

  /** Every promise was made by a server that had not passed the transaction then. */
  lemma {:induction false} PromisesMeant(e: Epoch, run: seq<System>, steps: seq<Step>, k: nat, m: Message)
    returns (j: nat)
    requires Run(e, run, steps) && k < |run| && m.TempDropped? && m in run[k].sent
    ensures j < k && PromisedAt(e, run, steps, j, m)
    decreases k
  {
    assert k > 0;
    if m in run[k - 1].sent {
      j := PromisesMeant(e, run, steps, k - 1, m);
    } else {
      j := k - 1;
      NewPromise(e, run, steps, k - 1, m);
    }
  }

  // How far a server gets.

  function OwnStamp(v: Server, m: nat): Stamp {
    Stamp(v.shard, m)
  }

  /** What the server has been told to do with message `m` of its shard. */
  predicate ToldOf(v: Server, m: nat, x: Outcome) {
    var s := OwnStamp(v, m);
    && s !in v.temp
    && if s in v.perm then x == Skipped else s in v.un && s in v.unMsgs && x == Processed(v.unMsgs[s])
  }

  predicate NothingTold(v: Server, m: nat) {
    var s := OwnStamp(v, m);
    s in v.temp || (s !in v.perm && !(s in v.un && s in v.unMsgs))
  }

  predicate ToldAt(v: Server, log: seq<Outcome>, m: nat) {
    m < |log| ==> ToldOf(v, m + 1, log[m])
  }

  /** From `v` on, the server did as it was told, message after message, as far as it was told. */
  ghost predicate Followed(v: Server, v': Server) {
    && v' == v.(log := v'.log) && v.log <= v'.log
    && (forall m: nat {:trigger ToldAt(v, v'.log, m)} :: |v.log| <= m ==> ToldAt(v, v'.log, m))
    && NothingTold(v, |v'.log| + 1)
  }

  lemma {:induction false} SettleFollows(v: Server)
    ensures Followed(v, Settle(v))
    decreases Ahead(v)
  {
    if Decided(v).Some? {
      var w := Put(v, Decided(v).value);
      PutConsumes(v);
      SettleFollows(w);
      FollowedOne(v, w, Settle(v));
    }
  }

  lemma FollowedOne(v: Server, w: Server, v': Server)
    requires Decided(v).Some? && w == Put(v, Decided(v).value) && Followed(w, v')
    ensures Followed(v, v')
  {
    assert w == v.(log := v.log + [Decided(v).value]) by {
      assert NextStamp(v) in v.perm ==> v.perm + {NextStamp(v)} == v.perm;
    }
    forall m: nat | |v.log| <= m
      ensures ToldAt(v, v'.log, m)
    {
      if m > |v.log| {
        assert ToldAt(w, v'.log, m);
      }
    }
  }

  /** The next message is entered as `x`, or as skipped when it was dropped; then the server goes on as told. */
  ghost predicate Entered(v: Server, x: Outcome, v': Server) {
    var s := NextStamp(v);
    var kept := if s in v.perm then Skipped else x;
    Followed(v.(log := v.log + [kept], perm := if kept.Skipped? then v.perm + {s} else v.perm), v')
  }

  lemma ProcessEnters(v: Server, x: Outcome)
    ensures NextStamp(v) in v.temp ==> ProcessNext(v, x) == v
    ensures NextStamp(v) !in v.temp ==> Entered(v, x, ProcessNext(v, x))
  {
    if NextStamp(v) !in v.temp {
      SettleFollows(Put(v, x));
    }
  }

  /** What is known of a server's step. */
  lemma ServerKnown(e: Epoch, run: seq<System>, steps: seq<Step>, k: nat, i: nat, m: Message)
    requires Run(e, run, steps) && k < |steps| && steps[k] == Deliver(i, m)
    ensures i < |run[k].servers| == |run[k + 1].servers| && run[k + 1].coord == run[k].coord
    ensures ServerOk(e, run[k].coord.results, run[k].servers[i]) && MessageOk(e, run[k].coord.results, m)
    ensures run[k + 1].servers[i] == ServerReceives(run[k].servers[i], m).0
    ensures run[k + 1].sent == run[k].sent + ServerReceives(run[k].servers[i], m).1
    ensures run[k + 1].servers == run[k].servers[i := run[k + 1].servers[i]]
  {
    Reachable(e, run, steps, k);
    assert NextAt(e, run, steps, k);
  }

  /** A transaction that arrives is entered exactly when it comes next and was not promised away. */
  lemma ArriveEffect(e: Epoch, run: seq<System>, steps: seq<Step>, k: nat, i: nat, t: Txn)
    requires Run(e, run, steps) && k < |steps| && steps[k] == Arrive(i, t)
    ensures i < |run[k].servers| == |run[k + 1].servers| && run[k + 1].sent == run[k].sent
    ensures var v, v' := run[k].servers[i], run[k + 1].servers[i];
            if NextStamp(v) in t.stamps && NextStamp(v) !in v.temp then Entered(v, Processed(t), v') else v' == v
  {
    assert NextAt(e, run, steps, k);
    ProcessEnters(run[k].servers[i], Processed(t));
  }

  /** And so is another server's entry. */
  lemma GapReplyEffect(e: Epoch, run: seq<System>, steps: seq<Step>, k: nat, i: nat, shard: nat, msgnum: nat,
                       x: Outcome)
    requires Run(e, run, steps) && k < |steps| && steps[k] == Deliver(i, GapReply(shard, msgnum, x))
    ensures i < |run[k].servers| == |run[k + 1].servers| && run[k + 1].sent == run[k].sent
    ensures var v, v' := run[k].servers[i], run[k + 1].servers[i];
            if Stamp(shard, msgnum) == NextStamp(v) && NextStamp(v) !in v.temp then Entered(v, x, v') else v' == v
  {
    ServerKnown(e, run, steps, k, i, steps[k].m);
    ProcessEnters(run[k].servers[i], x);
  }

  /**
   * What is found is no longer promised away under any of its stamps; in the server's shard it is entered, as
   * itself, exactly when it comes next.
   */
  lemma FoundEffect(e: Epoch, run: seq<System>, steps: seq<Step>, k: nat, i: nat, shard: nat, t: Txn)
    requires Run(e, run, steps) && k < |steps| && steps[k] == Deliver(i, TxnFound(shard, t))
    ensures i < |run[k].servers| == |run[k + 1].servers| && run[k + 1].sent == run[k].sent
    ensures var v, v' := run[k].servers[i], run[k + 1].servers[i];
            if shard != v.shard then v' == v
            else
              var w := v.(un := v.un + StampsOf(t), temp := v.temp - StampsOf(t),
                          unMsgs := v.unMsgs + OwnMsgs(v.shard, t));
              NextStamp(v) !in v.perm * StampsOf(t) &&
              if NextStamp(v) in t.stamps then Entered(w, Processed(t), v') else v' == w
  {
    ServerKnown(e, run, steps, k, i, steps[k].m);
    var v := run[k].servers[i];
    if shard == v.shard {
      UnDropOk(e, run[k].coord.results, v, t);
      ProcessEnters(InstallUnDrop(v, t), Processed(t));
    }
  }

  /** What is dropped is skipped, in the log or, exactly when it comes next, as the next message. */
  lemma DropEffect(e: Epoch, run: seq<System>, steps: seq<Step>, k: nat, i: nat, s: Stamp)
    requires Run(e, run, steps) && k < |steps| && steps[k] == Deliver(i, DropTxn(s))
    ensures i < |run[k].servers| == |run[k + 1].servers| && run[k + 1].sent == run[k].sent
    ensures var v, v' := run[k].servers[i], run[k + 1].servers[i];
            if s.shard != v.shard then v' == v
            else
              var w := v.(perm := v.perm + {s}, temp := v.temp - {s});
              if NextStamp(v) == s then Entered(w, Skipped, v')
              else v' == w.(log := v'.log) && |v'.log| == |v.log|
                   && forall m :: 0 <= m < |v.log| ==> v'.log[m] == if s.msgnum == m + 1 then Skipped else v.log[m]
  {
    ServerKnown(e, run, steps, k, i, steps[k].m);
    var v := run[k].servers[i];
    if s.shard == v.shard {
      ProcessEnters(InstallPermDrop(v, s), Skipped);
    }
  }

  // Another server's drop sets.

  function Among(ss: seq<Stamp>): set<Stamp> {
    set s | s in ss
  }

  function StampsOfAll(us: seq<Txn>): set<Stamp> {
    set t, s | t in us && s in t.stamps :: s
  }

  lemma {:induction false} MergeTempIs(v: Server, ts: seq<Stamp>)
    ensures MergeTemp(v, ts) == v.(temp := v.temp + (Among(ts) - v.perm - v.un))
    decreases |ts|
  {
    if ts == [] {
      assert v.temp + (Among(ts) - v.perm - v.un) == v.temp;
    } else {
      var n := |ts| - 1;
      MergeTempIs(v, ts[..n]);
      assert Among(ts) == Among(ts[..n]) + {ts[n]} by {
        assert ts == ts[..n] + [ts[n]];
      }
      var w := MergeTemp(v, ts[..n]);
      assert InstallTempDrop(w, ts[n]).temp == v.temp + (Among(ts) - v.perm - v.un);
    }
  }

  /** The log with the dropped messages of this shard skipped. */
  ghost predicate Skips(shard: nat, log: seq<Outcome>, gone: set<Stamp>, log': seq<Outcome>) {
    && |log'| == |log|
    && forall m :: 0 <= m < |log| ==> log'[m] == if Stamp(shard, m + 1) in gone then Skipped else log[m]
  }

  lemma {:induction false} MergePermIs(v: Server, ps: seq<Stamp>)
    ensures var v', gone := MergePerm(v, ps), Among(ps);
            v' == v.(perm := v.perm + gone, temp := v.temp - gone, log := v'.log) && Skips(v.shard, v.log, gone, v'.log)
    decreases |ps|
  {
    if ps == [] {
      assert v.perm + Among(ps) == v.perm && v.temp - Among(ps) == v.temp;
    } else {
      var n := |ps| - 1;
      MergePermIs(v, ps[..n]);
      assert Among(ps) == Among(ps[..n]) + {ps[n]} by {
        assert ps == ps[..n] + [ps[n]];
      }
      var w := MergePerm(v, ps[..n]);
      assert w.perm + {ps[n]} == v.perm + Among(ps) && w.temp - {ps[n]} == v.temp - Among(ps);
    }
  }

  /** Under its own stamps the server has the transactions found, and what it had. */
  ghost predicate OwnAdded(shard: nat, msgs: map<Stamp, Txn>, us: seq<Txn>, msgs': map<Stamp, Txn>) {
    && (forall s :: s in msgs' <==> s in msgs || (s in StampsOfAll(us) && s.shard == shard))
    && (forall s :: s in msgs' ==>
          if s in StampsOfAll(us) && s.shard == shard then exists t :: t in us && s in t.stamps && msgs'[s] == t
          else msgs'[s] == msgs[s])
  }

  lemma {:induction false} MergeUnIs(v: Server, us: seq<Txn>)
    ensures var v', found := MergeUn(v, us), StampsOfAll(us);
            && v' == v.(un := v.un + found, temp := v.temp - found, unMsgs := v'.unMsgs)
            && OwnAdded(v.shard, v.unMsgs, us, v'.unMsgs)
    decreases |us|
  {
    if us == [] {
      assert v.un + StampsOfAll(us) == v.un && v.temp - StampsOfAll(us) == v.temp;
    } else {
      var n := |us| - 1;
      MergeUnIs(v, us[..n]);
      StampsOfMore(us);
      var w := MergeUn(v, us[..n]);
      assert w.un + StampsOf(us[n]) == v.un + StampsOfAll(us) && w.temp - StampsOf(us[n]) == v.temp - StampsOfAll(us);
      OwnAddedMore(v.shard, v.unMsgs, us, w.unMsgs);
    }
  }

  lemma StampsOfMore(us: seq<Txn>)
    requires us != []
    ensures StampsOfAll(us) == StampsOfAll(us[..|us| - 1]) + StampsOf(us[|us| - 1])
  {
    assert us == us[..|us| - 1] + [us[|us| - 1]];
  }

  lemma OwnAddedMore(shard: nat, msgs: map<Stamp, Txn>, us: seq<Txn>, mid: map<Stamp, Txn>)
    requires us != [] && OwnAdded(shard, msgs, us[..|us| - 1], mid)
    ensures OwnAdded(shard, msgs, us, mid + OwnMsgs(shard, us[|us| - 1]))
  {
    var n := |us| - 1;
    StampsOfMore(us);
    var msgs' := mid + OwnMsgs(shard, us[n]);
    assert us[n] in us && forall t :: t in us[..n] ==> t in us;
  }

  /** Another server's drop sets are taken over; what it knows decided is no longer promised away. */
  lemma DropsEffect(e: Epoch, run: seq<System>, steps: seq<Step>, k: nat, i: nat, shard: nat, ts: seq<Stamp>,
                    ps: seq<Stamp>, us: seq<Txn>)
    requires Run(e, run, steps) && k < |steps| && steps[k] == Deliver(i, Drops(shard, ts, ps, us))
    ensures i < |run[k].servers| == |run[k + 1].servers| && run[k + 1].sent == run[k].sent
    ensures var v, v' := run[k].servers[i], run[k + 1].servers[i];
            var gone, found := Among(ps), StampsOfAll(us);
            if shard != v.shard then v' == v
            else
              && v' == v.(perm := v.perm + gone, un := v.un + found, unMsgs := v'.unMsgs, log := v'.log,
                          temp := v.temp + (Among(ts) - v.perm - v.un) - gone - found)
              && Skips(v.shard, v.log, gone, v'.log) && OwnAdded(v.shard, v.unMsgs, us, v'.unMsgs)
  {
    ServerKnown(e, run, steps, k, i, steps[k].m);
    var v := run[k].servers[i];
    MergeTempIs(v, ts);
    MergePermIs(MergeTemp(v, ts), ps);
    MergeUnIs(MergePerm(MergeTemp(v, ts), ps), us);
  }

  // The coordinator.

  /** A request for information has the stamp checked, and what is decided about it repeated. */
  lemma InfoEffect(e: Epoch, run: seq<System>, steps: seq<Step>, k: nat, s: Stamp)
    requires Run(e, run, steps) && k < |steps| && steps[k] == Decide(InfoRequest(s))
    ensures var d := run[k].coord.results;
            && run[k + 1].coord == run[k].coord && run[k + 1].servers == run[k].servers
            && run[k + 1].sent == run[k].sent + {Check(s)} +
                 (if s !in d then {} else if d[s] == Dropped then {DropTxn(s)} else {TxnFound(s.shard, d[s].txn)})
  {
    assert NextAt(e, run, steps, k);
  }

  /** The messages for the stamps of a transaction that were open. */
  function Verdicts(d: Decisions, t: Txn, dropped: bool): set<Message> {
    set s | s in t.stamps && s !in d :: Verdict(s, t, dropped)
  }

  function Verdict(s: Stamp, t: Txn, dropped: bool): Message {
    if dropped then DropTxn(s) else TxnFound(s.shard, t)
  }

  /**
   * A server that has the transaction decides it: all its stamps that are open become found, or dropped exactly when
   * one was dropped before, and the shards are told so.
   */
  lemma ReceivedEffect(e: Epoch, run: seq<System>, steps: seq<Step>, k: nat, t: Txn)
    requires Run(e, run, steps) && k < |steps| && steps[k] == Decide(TxnReceived(t))
    ensures var d, d' := run[k].coord.results, run[k + 1].coord.results;
            var dropped := exists s :: s in t.stamps && IsDroppedIn(d, s);
            && (forall s :: s in d' <==> s in d || s in t.stamps)
            && (forall s :: s in d ==> d'[s] == d[s])
            && (forall s :: s in t.stamps ==> d'[s] == if dropped then Dropped else Found(t))
            && run[k + 1].sent == run[k].sent + Verdicts(d, t, dropped) && run[k + 1].servers == run[k].servers
  {
    Reachable(e, run, steps, k);
    assert NextAt(e, run, steps, k);
    var k0, d := run[k].coord, run[k].coord.results;
    var dropped := exists s :: s in t.stamps && IsDroppedIn(d, s);
    assert SomeDropped(k0, t) <==> dropped;
    assert t in e.issued;
    ReceivedVerdicts(d, t, dropped);
    DroppedTogether(e, d, t, dropped);
  }

  lemma ReceivedVerdicts(d: Decisions, t: Txn, dropped: bool)
    ensures MessagesFor(if dropped then Dropped else Found(t), Open(d, t.stamps)) == Verdicts(d, t, dropped)
  {
    var fate := if dropped then Dropped else Found(t);
    forall s
      ensures s in Open(d, t.stamps) <==> s in t.stamps && s !in d
      ensures ResultFor(fate, s) == Verdict(s, t, dropped)
    {
    }
  }

  /** The stamps of a transaction that are decided are decided alike. */
  lemma DroppedTogether(e: Epoch, d: Decisions, t: Txn, dropped: bool)
    requires ValidEpoch(e) && DecisionsOk(e, d) && t in e.issued
    requires dropped <==> exists s :: s in t.stamps && IsDroppedIn(d, s)
    ensures forall s :: s in t.stamps && s in d ==> d[s] == if dropped then Dropped else Found(t)
  {
    forall s | s in t.stamps && s in d
      ensures d[s] == if dropped then Dropped else Found(t)
    {
      if d[s].Found? {
        assert FoundOk(e, d, s);
      }
    }
  }

  // Promises at the coordinator.

  predicate PromiseStep(step: Step, s: Stamp, shard: nat) {
    step.Decide? && step.m.TempDropped? && step.m.stamp == s && step.m.shard == shard
  }

  /** The promises of a shard on a stamp that the coordinator has received. */
  function Received(steps: seq<Step>, s: Stamp, shard: nat): set<Promise> {
    set j | 0 <= j < |steps| && PromiseStep(steps[j], s, shard) :: Promise(steps[j].m.replica, steps[j].m.view)
  }

  /** Those made in the latest view. */
  function LatestOf(ps: set<Promise>): set<Promise> {
    set p | p in ps && forall q :: q in ps ==> q.view <= p.view
  }

  lemma ReceivedAfter(steps: seq<Step>, step: Step, s: Stamp, shard: nat)
    ensures Received(steps + [step], s, shard) == Received(steps, s, shard) +
              if PromiseStep(step, s, shard) then {Promise(step.m.replica, step.m.view)} else {}
  {
    var all := steps + [step];
    assert all[|steps|] == step;
    forall p | p in Received(steps, s, shard)
      ensures p in Received(all, s, shard)
    {
      var j :| 0 <= j < |steps| && PromiseStep(steps[j], s, shard) && Promise(steps[j].m.replica, steps[j].m.view) == p;
      assert all[j] == steps[j];
    }
  }

  /** A set of promises that has any has a latest one. */
  lemma {:induction false} SomeLatest(ps: set<Promise>) returns (p: Promise)
    requires ps != {}
    ensures p in LatestOf(ps)
    decreases |ps|
  {
    var q :| q in ps;
    if ps == {q} {
      p := q;
    } else {
      var r := SomeLatest(ps - {q});
      p := if r.view >= q.view then r else q;
    }
  }

  lemma LatestRenewed(ps: set<Promise>, p: Promise)
    ensures LatestOf(ps + {p}) == Renewed(LatestOf(ps), p)
  {
    if ps != {} {
      var top := SomeLatest(ps);
      assert forall q :: q in LatestOf(ps) ==> q.view == top.view;
    }
  }

  ghost predicate RecordTells(steps: seq<Step>, k: Coordinator, s: Stamp, shard: nat) {
    s !in k.results ==> RecordsFor(k, s, shard) == LatestOf(Received(steps, s, shard))
  }

  /** What the coordinator has recorded about open stamps is what it received, of the latest views. */
  ghost predicate RecordsTell(steps: seq<Step>, k: Coordinator) {
    forall s, shard :: RecordTells(steps, k, s, shard)
  }

  lemma RecordsPromise(c: Config, g: nat, steps: seq<Step>, k: Coordinator, m: Message)
    requires c.n > 0 && RecordsTell(steps, k) && m.TempDropped?
    ensures RecordsTell(steps + [Decide(m)],
                        HandleTempDropped(c, g, k, m.stamp, m.shard, Promise(m.replica, m.view)).0)
  {
    var k' := HandleTempDropped(c, g, k, m.stamp, m.shard, Promise(m.replica, m.view)).0;
    forall s, shard
      ensures RecordTells(steps + [Decide(m)], k', s, shard)
    {
      ReceivedAfter(steps, Decide(m), s, shard);
      LatestRenewed(Received(steps, s, shard), Promise(m.replica, m.view));
      assert RecordTells(steps, k, s, shard);
      AddedRecord(k, m.stamp, m.shard, Promise(m.replica, m.view), s, shard);
    }
  }

  lemma AddedRecord(k: Coordinator, x: Stamp, sh: nat, p: Promise, s: Stamp, shard: nat)
    ensures RecordsFor(AddDropRecord(k, x, sh, p), s, shard) ==
              if s == x && shard == sh then Renewed(RecordsFor(k, s, shard), p) else RecordsFor(k, s, shard)
  {
  }

  lemma RecordsOther(steps: seq<Step>, step: Step, k: Coordinator, k': Coordinator)
    requires RecordsTell(steps, k) && !(step.Decide? && step.m.TempDropped?)
    requires forall s :: s !in k'.results ==> s !in k.results && forall shard ::
               RecordsFor(k', s, shard) == RecordsFor(k, s, shard)
    ensures RecordsTell(steps + [step], k')
  {
    forall s, shard
      ensures RecordTells(steps + [step], k', s, shard)
    {
      ReceivedAfter(steps, step, s, shard);
      assert RecordTells(steps, k, s, shard);
    }
  }

  lemma {:induction false} RunRecords(e: Epoch, run: seq<System>, steps: seq<Step>, k: nat)
    requires Run(e, run, steps) && k < |run|
    ensures RecordsTell(steps[..k], run[k].coord)
    decreases k
  {
    if k > 0 {
      var s, s', step := run[k - 1], run[k], steps[k - 1];
      RunRecords(e, run, steps, k - 1);
      assert NextAt(e, run, steps, k - 1) && steps[..k] == steps[..k - 1] + [step];
      if step.Decide? && step.m.TempDropped? {
        RecordsPromise(e.c, e.shards, steps[..k - 1], s.coord, step.m);
      } else {
        RecordsOther(steps[..k - 1], step, s.coord, s'.coord);
      }
    }
  }

  /** In every shard enough of the latest promises received. */
  predicate AllPromised(e: Epoch, steps: seq<Step>, s: Stamp)
    requires e.c.n > 0
  {
    forall shard :: 0 <= shard < e.shards ==> EnoughPromises(e.c, LatestOf(Received(steps, s, shard)))
  }

  /**
   * A promise has an open stamp dropped, and its shard told so, exactly when with it enough promises of every
   * shard's latest view have been received; otherwise nothing is decided.
   */
  lemma PromiseEffect(e: Epoch, run: seq<System>, steps: seq<Step>, k: nat, s: Stamp, shard: nat, replica: nat,
                      view: nat)
    requires Run(e, run, steps) && k < |steps| && steps[k] == Decide(TempDropped(s, shard, replica, view))
    ensures e.c.n > 0
    ensures var d, d' := run[k].coord.results, run[k + 1].coord.results;
            var drops := s !in d && AllPromised(e, steps[..k + 1], s);
            && d' == (if drops then d[s := Dropped] else d)
            && run[k + 1].sent == run[k].sent + (if drops then {DropTxn(s)} else {})
            && run[k + 1].servers == run[k].servers
  {
    assert NextAt(e, run, steps, k);
    RunRecords(e, run, steps, k);
    var c, p, before := run[k].coord, Promise(replica, view), steps[..k];
    assert steps[..k + 1] == before + [steps[k]];
    if s !in c.results {
      var c1 := AddDropRecord(c, s, shard, p);
      forall sh
        ensures RecordsFor(c1, s, sh) == LatestOf(Received(steps[..k + 1], s, sh))
      {
        ReceivedAfter(before, steps[k], s, sh);
        LatestRenewed(Received(before, s, sh), p);
        assert RecordTells(before, c, s, sh);
        AddedRecord(c, s, shard, p, s, sh);
      }
      DroppedByRecords(e, c1, s, steps[..k + 1]);
    }
  }

  lemma DroppedByRecords(e: Epoch, k: Coordinator, s: Stamp, steps: seq<Step>)
    requires e.c.n > 0 && s in k.records
    requires forall shard: nat :: RecordsFor(k, s, shard) == LatestOf(Received(steps, s, shard))
    ensures IsDropped(e.c, e.shards, k, s) <==> AllPromised(e, steps, s)
  {
    forall shard: nat | shard < e.shards
      ensures shard in k.records[s] && EnoughPromises(e.c, k.records[s][shard]) <==>
                EnoughPromises(e.c, LatestOf(Received(steps, s, shard)))
    {
      assert RecordsFor(k, s, shard) == LatestOf(Received(steps, s, shard));
    }
  }
}

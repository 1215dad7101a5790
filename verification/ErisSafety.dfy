/** What every run of Eris within an epoch keeps. */
module ErisSafety {
  import opened Quorums
  import opened Eris

  /** The decisions taken so far. */
  type Decisions = map<Stamp, Fate>

  /** The transaction is found under every one of its stamps. */
  predicate AllFound(d: Decisions, t: Txn) {
    forall s :: s in t.stamps ==> s in d && d[s] == Found(t)
  }

  /** And it concerns the shard. */
  predicate FoundIn(d: Decisions, shard: nat, t: Txn) {
    AllFound(d, t) && exists s :: s in t.stamps && s.shard == shard
  }

  predicate IsDroppedIn(d: Decisions, s: Stamp) {
    s in d && d[s] == Dropped
  }

  predicate FoundOk(e: Epoch, d: Decisions, s: Stamp) {
    s in d && d[s].Found? && d[s].txn in e.issued && s in d[s].txn.stamps && AllFound(d, d[s].txn)
  }

  /** A found stamp belongs to an issued transaction all of whose stamps are found. */
  ghost predicate DecisionsOk(e: Epoch, d: Decisions) {
    forall s :: s in d && d[s].Found? ==> FoundOk(e, d, s)
  }

  predicate EntryOk(e: Epoch, d: Decisions, s: Stamp, x: Outcome) {
    match x
    case Processed(t) => t in e.issued && s in t.stamps
    case Skipped => IsDroppedIn(d, s)
  }

  /** An entry is skipped exactly when its stamp is among the permanent drops. */
  predicate LogAt(e: Epoch, d: Decisions, v: Server, m: nat) {
    1 <= m <= |v.log| ==>
      EntryOk(e, d, Stamp(v.shard, m), v.log[m - 1]) && (v.log[m - 1] == Skipped <==> Stamp(v.shard, m) in v.perm)
  }

  ghost predicate LogOk(e: Epoch, d: Decisions, v: Server) {
    forall m: nat :: LogAt(e, d, v, m)
  }

  ghost predicate DropSetsOk(d: Decisions, v: Server) {
    && (forall s :: s in v.perm ==> IsDroppedIn(d, s))
    && (forall s :: s in v.un ==> s in d && d[s].Found?)
    && v.temp !! v.perm && v.temp !! v.un
  }

  ghost predicate UnMsgsOk(d: Decisions, v: Server) {
    && (forall s :: s in v.unMsgs ==> s in v.un && s.shard == v.shard && s in d && d[s] == Found(v.unMsgs[s]))
    && (forall s :: s in v.un && s.shard == v.shard ==> s in v.unMsgs)
  }

  ghost predicate ServerOk(e: Epoch, d: Decisions, v: Server) {
    DropSetsOk(d, v) && UnMsgsOk(d, v) && LogOk(e, d, v)
  }

  ghost predicate MessageOk(e: Epoch, d: Decisions, m: Message) {
    match m
    case TxnReceived(t) => t in e.issued
    case TxnFound(shard, t) => t in e.issued && FoundIn(d, shard, t)
    case DropTxn(s) => IsDroppedIn(d, s)
    case GapReply(shard, msgnum, x) => EntryOk(e, d, Stamp(shard, msgnum), x)
    case Drops(shard, ts, ps, us) =>
      && (forall s :: s in ps ==> IsDroppedIn(d, s))
      && (forall t :: t in us ==> t in e.issued && FoundIn(d, shard, t))
    case _ => true
  }

  ghost predicate MessagesOk(e: Epoch, d: Decisions, ms: set<Message>) {
    forall m :: m in ms ==> MessageOk(e, d, m)
  }

  ghost predicate Inv(e: Epoch, s: System) {
    && ValidEpoch(e) && DecisionsOk(e, s.coord.results)
    && (forall i :: 0 <= i < |s.servers| ==> ServerOk(e, s.coord.results, s.servers[i]))
    && MessagesOk(e, s.coord.results, s.sent)
  }

  // Decisions only grow.

  predicate Grows(d: Decisions, d': Decisions) {
    forall s :: s in d ==> s in d' && d'[s] == d[s]
  }

  lemma ServerStable(e: Epoch, d: Decisions, d': Decisions, v: Server)
    requires Grows(d, d') && ServerOk(e, d, v)
    ensures ServerOk(e, d', v)
  {
    forall m: nat
      ensures LogAt(e, d', v, m)
    {
      assert LogAt(e, d, v, m);
    }
  }

  // The coordinator.

  lemma ReceivedOk(e: Epoch, k: Coordinator, t: Txn)
    requires ValidEpoch(e) && DecisionsOk(e, k.results) && t in e.issued
    ensures var (k', out) := HandleTxnReceived(k, t);
            && Grows(k.results, k'.results) && DecisionsOk(e, k'.results) && MessagesOk(e, k'.results, out)
            && forall s :: s in t.stamps ==> s in k'.results
  {
  }

  // The servers.

  lemma UnDropOk(e: Epoch, d: Decisions, v: Server, t: Txn)
    requires ServerOk(e, d, v) && FoundIn(d, v.shard, t)
    ensures UnDropAllowed(v, t) && ServerOk(e, d, InstallUnDrop(v, t))
  {
    var v' := InstallUnDrop(v, t);
    forall m: nat
      ensures LogAt(e, d, v', m)
    {
      assert LogAt(e, d, v, m);
    }
  }

  lemma PermDropOk(e: Epoch, d: Decisions, v: Server, s: Stamp)
    requires ServerOk(e, d, v) && IsDroppedIn(d, s)
    ensures PermDropAllowed(v, s) && ServerOk(e, d, InstallPermDrop(v, s))
  {
    var v' := InstallPermDrop(v, s);
    forall m: nat
      ensures LogAt(e, d, v', m)
    {
      assert LogAt(e, d, v, m);
    }
  }

  lemma TempDropOk(e: Epoch, d: Decisions, v: Server, s: Stamp)
    requires ServerOk(e, d, v)
    ensures ServerOk(e, d, InstallTempDrop(v, s))
  {
    var v' := InstallTempDrop(v, s);
    forall m: nat
      ensures LogAt(e, d, v', m)
    {
      assert LogAt(e, d, v, m);
    }
  }

  /** Appending keeps the server in order, and the assertion on found messages holds. */
  lemma PutOk(e: Epoch, d: Decisions, v: Server, x: Outcome)
    requires ServerOk(e, d, v) && EntryOk(e, d, NextStamp(v), x)
    ensures ServerOk(e, d, Put(v, x))
    ensures NextStamp(v) in v.un ==> x.Processed? && NextStamp(v) !in v.perm
  {
    var v' := Put(v, x);
    forall m: nat
      ensures LogAt(e, d, v', m)
    {
      assert LogAt(e, d, v, m);
    }
  }

  lemma {:induction false} SettleOk(e: Epoch, d: Decisions, v: Server)
    requires ValidEpoch(e) && DecisionsOk(e, d) && ServerOk(e, d, v)
    ensures ServerOk(e, d, Settle(v))
    decreases Ahead(v)
  {
    if Decided(v).Some? {
      PutOk(e, d, v, Decided(v).value);
      PutConsumes(v);
      SettleOk(e, d, Put(v, Decided(v).value));
    }
  }

  lemma ProcessOk(e: Epoch, d: Decisions, v: Server, x: Outcome)
    requires ValidEpoch(e) && DecisionsOk(e, d) && ServerOk(e, d, v) && EntryOk(e, d, NextStamp(v), x)
    ensures ServerOk(e, d, ProcessNext(v, x))
  {
    PutOk(e, d, v, x);
    SettleOk(e, d, Put(v, x));
  }

  lemma {:induction false} MergeTempOk(e: Epoch, d: Decisions, v: Server, ts: seq<Stamp>)
    requires ServerOk(e, d, v)
    ensures ServerOk(e, d, MergeTemp(v, ts)) && MergeTemp(v, ts).shard == v.shard
    decreases |ts|
  {
    if ts != [] {
      MergeTempOk(e, d, v, ts[..|ts| - 1]);
      TempDropOk(e, d, MergeTemp(v, ts[..|ts| - 1]), ts[|ts| - 1]);
    }
  }

  lemma {:induction false} MergePermOk(e: Epoch, d: Decisions, v: Server, ps: seq<Stamp>)
    requires ServerOk(e, d, v) && forall s :: s in ps ==> IsDroppedIn(d, s)
    ensures ServerOk(e, d, MergePerm(v, ps)) && MergePerm(v, ps).shard == v.shard
    decreases |ps|
  {
    if ps != [] {
      MergePermOk(e, d, v, ps[..|ps| - 1]);
      assert ps[|ps| - 1] in ps;
      PermDropOk(e, d, MergePerm(v, ps[..|ps| - 1]), ps[|ps| - 1]);
    }
  }

  lemma {:induction false} MergeUnOk(e: Epoch, d: Decisions, v: Server, us: seq<Txn>)
    requires ServerOk(e, d, v)
    requires forall t :: t in us ==> FoundIn(d, v.shard, t)
    ensures ServerOk(e, d, MergeUn(v, us)) && MergeUn(v, us).shard == v.shard
    decreases |us|
  {
    if us != [] {
      MergeUnOk(e, d, v, us[..|us| - 1]);
      assert us[|us| - 1] in us;
      UnDropOk(e, d, MergeUn(v, us[..|us| - 1]), us[|us| - 1]);
    }
  }

  /** The assertions met one by one while another server's drop sets are merged. */
  ghost predicate MergeAllowed(v: Server, ts: seq<Stamp>, ps: seq<Stamp>, us: seq<Txn>) {
    && (forall n :: 0 <= n < |ps| ==> PermDropAllowed(MergePerm(MergeTemp(v, ts), ps[..n]), ps[n]))
    && (forall n :: 0 <= n < |us| ==> UnDropAllowed(MergeUn(MergePerm(MergeTemp(v, ts), ps), us[..n]), us[n]))
  }

  lemma MergeIsAllowed(e: Epoch, d: Decisions, v: Server, ts: seq<Stamp>, ps: seq<Stamp>, us: seq<Txn>)
    requires ServerOk(e, d, v) && MessageOk(e, d, Drops(v.shard, ts, ps, us))
    ensures Compatible(v, ps, us) && MergeAllowed(v, ts, ps, us) && ServerOk(e, d, MergeDrops(v, ts, ps, us))
  {
    forall t | t in us
      ensures UnDropAllowed(v, t) && forall s :: s in ps ==> s !in t.stamps
    {
      UnDropOk(e, d, v, t);
    }
    MergeTempOk(e, d, v, ts);
    var v1 := MergeTemp(v, ts);
    forall n | 0 <= n < |ps|
      ensures PermDropAllowed(MergePerm(v1, ps[..n]), ps[n])
    {
      MergePermOk(e, d, v1, ps[..n]);
      PermDropOk(e, d, MergePerm(v1, ps[..n]), ps[n]);
    }
    MergePermOk(e, d, v1, ps);
    var v2 := MergePerm(v1, ps);
    forall n | 0 <= n < |us|
      ensures UnDropAllowed(MergeUn(v2, us[..n]), us[n])
    {
      MergeUnOk(e, d, v2, us[..n]);
      UnDropOk(e, d, MergeUn(v2, us[..n]), us[n]);
    }
    MergeUnOk(e, d, v2, us);
  }

  /** A server that handles a message as it should stays in order and says nothing wrong. */
  lemma ServerReceivesOk(e: Epoch, d: Decisions, v: Server, m: Message)
    requires ValidEpoch(e) && DecisionsOk(e, d) && ServerOk(e, d, v) && MessageOk(e, d, m)
    ensures var (v', out) := ServerReceives(v, m); ServerOk(e, d, v') && MessagesOk(e, d, out)
  {
    match m
    case Check(s) => CheckOk(e, d, v, s);
    case TxnFound(shard, t) =>
      if shard == v.shard {
        UnDropOk(e, d, v, t);
        if NextStamp(v) in t.stamps {
          ProcessOk(e, d, InstallUnDrop(v, t), Processed(t));
        }
      }
    case DropTxn(s) =>
      PermDropOk(e, d, v, s);
      if NextStamp(v) == s {
        ProcessOk(e, d, InstallPermDrop(v, s), Skipped);
      }
    case GapReply(shard, msgnum, x) =>
      if shard == v.shard && msgnum == |v.log| + 1 {
        ProcessOk(e, d, v, x);
      }
    case Drops(shard, ts, ps, us) =>
      if shard == v.shard {
        MergeIsAllowed(e, d, v, ts, ps, us);
      }
    case _ =>
  }

  lemma CheckOk(e: Epoch, d: Decisions, v: Server, s: Stamp)
    requires ServerOk(e, d, v)
    ensures var (v', out) := HandleCheck(v, s); ServerOk(e, d, v') && MessagesOk(e, d, out)
  {
    TempDropOk(e, d, v, s);
    var r := Lookup(v.log, s);
    if r.Some? {
      var i :| 0 <= i < |v.log| && v.log[i] == Processed(r.value);
      assert LogAt(e, d, v, i + 1);
    }
  }

  // Every step.

  lemma CoordinatorKeeps(e: Epoch, s: System, k: Coordinator, out: set<Message>)
    requires Inv(e, s) && Grows(s.coord.results, k.results) && DecisionsOk(e, k.results)
    requires MessagesOk(e, k.results, out)
    ensures Inv(e, s.(coord := k, sent := s.sent + out))
  {
    var d, d' := s.coord.results, k.results;
    forall m | m in s.sent
      ensures MessageOk(e, d', m)
    {
    }
    forall i | 0 <= i < |s.servers|
      ensures ServerOk(e, d', s.servers[i])
    {
      ServerStable(e, d, d', s.servers[i]);
    }
  }

  lemma CoordinatorReceivesOk(e: Epoch, s: System, m: Message)
    requires Inv(e, s) && m in s.sent
    ensures var (k', out) := CoordinatorReceives(e, s.coord, m);
            Grows(s.coord.results, k'.results) && DecisionsOk(e, k'.results) && MessagesOk(e, k'.results, out)
  {
  }

  lemma InvNext(e: Epoch, s: System, s': System, step: Step)
    requires Inv(e, s) && Next(e, s, s', step)
    ensures Inv(e, s') && Grows(s.coord.results, s'.coord.results)
  {
    var d := s.coord.results;
    match step
    case Arrive(i, t) =>
      var v := s.servers[i];
      if NextStamp(v) in t.stamps {
        ProcessOk(e, d, v, Processed(t));
      }
      assert s.sent + {} == s.sent;
    case Ask(stamp) =>
    case Decide(m) =>
      var (k, out) := CoordinatorReceives(e, s.coord, m);
      CoordinatorReceivesOk(e, s, m);
      CoordinatorKeeps(e, s, k, out);
    case Deliver(i, m) =>
      var (v, out) := ServerReceives(s.servers[i], m);
      ServerReceivesOk(e, d, s.servers[i], m);
    case AnswerGap(i, msgnum) =>
      assert LogAt(e, d, s.servers[i], msgnum);
    case ShareDrops(i, ts, ps, us) =>
    case NewView(i, view) => NewViewOk(e, s, i, view);
  }

  lemma NewViewOk(e: Epoch, s: System, i: nat, view: nat)
    requires Inv(e, s) && i < |s.servers|
    ensures Inv(e, s.(servers := s.servers[i := s.servers[i].(view := view)]))
  {
    var d, v := s.coord.results, s.servers[i];
    var v' := v.(view := view);
    forall m: nat
      ensures LogAt(e, d, v', m)
    {
      assert LogAt(e, d, v, m);
    }
  }
}

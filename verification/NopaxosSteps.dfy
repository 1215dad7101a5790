/** Every step of NOPaxos within a view keeps the invariant. */
module NopaxosSteps {
  import opened Numbers
  import opened Quorums
  import opened Logs
  import opened Nopaxos
  import opened NopaxosCore
  import opened NopaxosSafety

  // Followers.

  lemma FollowerRequest(e: Env, rs: seq<Replica>, i: nat, msgnum: nat)
    requires Ready(e, rs, i) && 1 <= msgnum <= |e.stamped|
    requires rs[i].core.next == 1 ==> msgnum == e.v.start
    ensures HandleRequest(e.v, i, rs[i], msgnum, e.stamped[msgnum - 1]) in GoodSteps(e, rs, i)
  {
    var r, req := rs[i], e.stamped[msgnum - 1];
    if r.gapCommit || msgnum < r.core.next || (msgnum > r.core.next && r.core.next != 1 && r.gapRequested) {
    } else if msgnum > r.core.next && r.core.next != 1 {
    } else {
      ProcessGood(e, rs, i, msgnum, Op(req));
    }
  }

  /** Any replica's answer about one of its operations is right. */
  lemma GapAnswer(e: Env, rs: seq<Replica>, i: nat, op: nat)
    requires i < |rs| && RepOk(e, i, rs[i]) && op >= FirstGap(e.v)
    ensures MessagesOk(e, rs, HandleGapRequest(i, rs[i], op))
  {
    var r := rs[i];
    if 1 <= op <= |r.core.log| {
      assert SlotOk(e.v, e.stamped, r.core.log, op - 1);
      assert IsNoOp(r.core.log, op) <==> op in r.core.gaps;
    }
  }

  lemma FollowerGapFound(e: Env, rs: seq<Replica>, i: nat, op: nat, content: Content)
    requires Ready(e, rs, i) && MessageOk(e, rs, GapFound(op, content))
    ensures HandleGapFound(e.v, i, rs[i], op, content) in GoodSteps(e, rs, i)
  {
    var r := rs[i];
    if op == |r.core.log| + 1 {
      ProcessGood(e, rs, i, r.core.next, content);
    }
  }

  /** A change of the core that does not lengthen the log. */
  lemma InPlaceGood(e: Env, rs: seq<Replica>, i: nat, k: Core, out: set<Message>)
    requires Ready(e, rs, i) && CoreOk(e.v, e.stamped, e.l, k) && Evolves(e.l, rs[i].core, k)
    requires |k.log| == |rs[i].core.log| && forall m :: m in out ==> m.GapCommitReply?
    ensures (rs[i].(core := k), out) in GoodSteps(e, rs, i)
  {
    MovedGood(e, rs, i, k);
    assert Moved(rs[i], k) == rs[i].(core := k);
  }

  lemma FollowerGapCommit(e: Env, rs: seq<Replica>, i: nat, op: nat)
    requires Ready(e, rs, i) && MessageOk(e, rs, GapCommit(op))
    ensures HandleGapCommit(e.v, i, rs[i], op) in GoodSteps(e, rs, i)
  {
    var r := rs[i];
    var k := r.core.(gaps := r.core.gaps + {op});
    if |r.core.log| + 1 < op {
      InPlaceGood(e, rs, i, k, {});
    } else if op <= |r.core.log| {
      MarkOk(e.v, e.stamped, e.l, r.core, op);
      InPlaceGood(e, rs, i, MarkNoop(k, op), {GapCommitReply(op, i)});
    } else {
      ProcessGood(e, rs, i, r.core.next, NoOp);
    }
  }

  lemma FollowerSyncCommit(e: Env, rs: seq<Replica>, i: nat, p: nat)
    requires Ready(e, rs, i) && MessageOk(e, rs, SyncCommit(p))
    ensures HandleSyncCommit(e.v, i, rs[i], p) in GoodSteps(e, rs, i)
  {
    var r := rs[i];
    if r.committed >= p {
    } else {
      var s := r.(commits := r.commits + {p});
      var res := AfterCommitPoint(e.v, i, s, p);
      AfterCommitPointGood(e, rs[i := s], i, p);
      Compose(e, rs, i, s, {}, res.0, res.1);
      assert {} + res.1 == res.1;
    }
  }

  /** The rest of the handler, once the commit point is recorded. */
  function AfterCommitPoint(v: View, me: nat, s: Replica, p: nat): (Replica, set<Message>) {
    if p !in s.prepares then (s, {SyncPrepareRequest})
    else if |s.core.log| < p then (s, {})
    else
      var (t, out) := CommitUpTo(v, me, s, p);
      (t.(prepares := t.prepares - {p}, commits := t.commits - {p}), out)
  }

  lemma AfterCommitPointGood(e: Env, rs: seq<Replica>, i: nat, p: nat)
    requires Ready(e, rs, i) && p in rs[i].commits
    ensures AfterCommitPoint(e.v, i, rs[i], p) in GoodSteps(e, rs, i)
  {
    var r := rs[i];
    if p !in r.prepares {
    } else if |r.core.log| < p {
    } else {
      CoversMatch(e.v, e.stamped, e.l, r.core, p);
    }
  }

  /** The handler's three stages: note the point and install the gaps, then complete the log. */
  lemma FollowerSyncPrepare(e: Env, rs: seq<Replica>, i: nat, p: nat, gaps: seq<nat>)
    requires Ready(e, rs, i) && MessageOk(e, rs, SyncPrepare(p, gaps)) && rs[i].committed < p
    ensures HandleSyncPrepare(e.v, i, rs[i], p, gaps) in GoodSteps(e, rs, i)
  {
    var r := rs[i];
    var k := InstallGaps(r.core, gaps);
    InstallGapsOk(e.v, e.stamped, e.l, r.core, gaps);
    assert Covers(e.l, k.gaps, p);
    var (s, out) := Advance(e.v, i, r.(prepares := r.prepares + {p}), k);
    PreparedGood(e, rs, i, k, p);
    AfterGapsGood(e, rs[i := s], i, p);
    var (t, more) := AfterGaps(e.v, i, s, p);
    Compose(e, rs, i, s, out, t, more);
  }

  /** Noting the sync point while the gaps are installed. */
  lemma PreparedGood(e: Env, rs: seq<Replica>, i: nat, k: Core, p: nat)
    requires Ready(e, rs, i) && CoreOk(e.v, e.stamped, e.l, k) && Evolves(e.l, rs[i].core, k) && Covers(e.l, k.gaps, p)
    ensures Advance(e.v, i, rs[i].(prepares := rs[i].prepares + {p}), k) in GoodSteps(e, rs, i)
  {
    MovedPrepared(e, rs, i, k, p);
    AdvanceFrom(e, rs, i, rs[i].(prepares := rs[i].prepares + {p}), k);
  }

  lemma MovedPrepared(e: Env, rs: seq<Replica>, i: nat, k: Core, p: nat)
    requires Ready(e, rs, i) && CoreOk(e.v, e.stamped, e.l, k) && Evolves(e.l, rs[i].core, k) && Covers(e.l, k.gaps, p)
    ensures (Moved(rs[i].(prepares := rs[i].prepares + {p}), k), {}) in GoodSteps(e, rs, i)
    ensures rs[i].transfer.Transfer? ==> Covers(e.l, k.gaps, rs[i].transfer.end - 1)
  {
    MovedGood(e, rs, i, k);
    var r, r' := Moved(rs[i], k), Moved(rs[i].(prepares := rs[i].prepares + {p}), k);
    assert r' == r.(prepares := r.prepares + {p});
  }

  lemma AfterGapsGood(e: Env, rs: seq<Replica>, i: nat, p: nat)
    requires Ready(e, rs, i) && Covers(e.l, rs[i].core.gaps, p)
    ensures AfterGaps(e.v, i, rs[i], p) in GoodSteps(e, rs, i)
  {
    if |rs[i].core.log| >= p {
      SyncPrepareGood(e, rs, i, p);
    }
  }

  lemma TailPartOf(l: seq<Slot>, b: nat, entries: seq<Slot>, skip: nat)
    requires PartOf(l, b, entries) && skip <= |entries|
    ensures PartOf(l, b + skip, entries[skip..])
  {
  }

  lemma ProcessTransferred(e: Env, rs: seq<Replica>, i: nat, slot: Slot)
    requires Ready(e, rs, i) && |rs[i].core.log| < |e.l| && slot == e.l[|rs[i].core.log|]
    ensures Process(e.v, i, rs[i], slot.msgnum, slot.content) in GoodSteps(e, rs, i)
    ensures Ready(e, rs[i := Process(e.v, i, rs[i], slot.msgnum, slot.content).0], i)
  {
    var op := |rs[i].core.log| + 1;
    assert SlotOk(e.v, e.stamped, e.l, op - 1);
    assert IsNoOp(e.l, op) ==> GapOk(e.v, e.l, op);
    ProcessGood(e, rs, i, slot.msgnum, slot.content);
    var (s, out) := Process(e.v, i, rs[i], slot.msgnum, slot.content);
  }

  lemma {:induction false} InstallGood(e: Env, rs: seq<Replica>, i: nat, op: nat, entries: seq<Slot>)
    requires Ready(e, rs, i) && |e.v.base| < op && PartOf(e.l, op - 1, entries)
    ensures var res := Install(e.v, i, rs[i], op, entries); (res.replica, res.out) in GoodSteps(e, rs, i)
    decreases |entries|
  {
    if entries == [] || op != |rs[i].core.log| + 1 {
    } else {
      var (s, out) := Process(e.v, i, rs[i], entries[0].msgnum, entries[0].content);
      ProcessTransferred(e, rs, i, entries[0]);
      TailPartOf(e.l, op - 1, entries, 1);
      InstallGood(e, rs[i := s], i, op + 1, entries[1..]);
      var rest := Install(e.v, i, s, op + 1, entries[1..]);
      Compose(e, rs, i, s, out, rest.replica, rest.out);
    }
  }

  lemma FollowerTransferReply(e: Env, rs: seq<Replica>, i: nat, begin: nat, entries: seq<Slot>)
    requires Ready(e, rs, i) && MessageOk(e, rs, StateTransferReply(i, begin, entries))
    ensures var res := HandleStateTransferReply(e.v, i, rs[i], begin, entries);
            (res.replica, res.out) in GoodSteps(e, rs, i)
  {
    var last := |rs[i].core.log|;
    var skip := last + 1 - begin;
    if |entries| > skip {
      TailPartOf(e.l, begin - 1, entries, skip);
      InstallGood(e, rs, i, last + 1, entries[skip..]);
    }
  }

  // The leader.

  ghost predicate LeadReady(e: Env, rs: seq<Replica>) {
    && EnvOk(e) && e.v.leader < |rs| && rs[e.v.leader].active
    && RepOk(e, e.v.leader, rs[e.v.leader]) && LeaderOk(e, rs, rs[e.v.leader])
    && e.l == rs[e.v.leader].core.log && e.committed == rs[e.v.leader].committed
  }

  function LeadEnv(e: Env, r': Replica): Env {
    Env(e.v, e.stamped, r'.core.log, r'.committed)
  }

  /** What a handler at the leader keeps. */
  ghost predicate GoodLead(e: Env, rs: seq<Replica>, r': Replica, out: set<Message>)
    requires e.v.leader < |rs|
  {
    && e.l <= r'.core.log && e.committed <= r'.committed && r'.active
    && EnvOk(LeadEnv(e, r')) && RepOk(LeadEnv(e, r'), e.v.leader, r')
    && Evolves(r'.core.log, rs[e.v.leader].core, r'.core)
    && LeaderOk(LeadEnv(e, r'), rs[e.v.leader := r'], r')
    && MessagesOk(LeadEnv(e, r'), rs[e.v.leader := r'], out)
  }

  ghost function LeadSteps(e: Env, rs: seq<Replica>): iset<(Replica, set<Message>)>
    requires e.v.leader < |rs|
  {
    iset res: (Replica, set<Message>) | GoodLead(e, rs, res.0, res.1)
  }

  /** Bookkeeping of gap agreement plays no part in the invariant. */
  predicate SameButGaps(r: Replica, r0: Replica) {
    r0 == r.(missing := r0.missing, gapRequested := r0.gapRequested, gapCommit := r0.gapCommit, gapOKs := r0.gapOKs)
  }

  /** The leader only speaks or changes its gap bookkeeping. */
  lemma LeadSpeaks(e: Env, rs: seq<Replica>, r0: Replica, out: set<Message>)
    requires LeadReady(e, rs) && SameButGaps(rs[e.v.leader], r0) && MessagesOk(e, rs, out)
    requires (r0.gapRequested ==> |e.l| + 1 >= FirstGap(e.v)) && (r0.gapCommit ==> rs[e.v.leader].gapCommit)
    ensures (r0, out) in LeadSteps(e, rs)
  {
  }

  /** The leader's log after one more operation. */
  lemma LeadCore(e: Env, k: Core, msgnum: nat, content: Content)
    requires EnvOk(e) && k.log == e.l && CoreOk(e.v, e.stamped, e.l, k)
    requires msgnum == NumberOf(e.v, |e.l| + 1) && ContentOk(e.stamped, msgnum, content)
    requires content.NoOp? ==> |e.l| + 1 >= FirstGap(e.v)
    ensures Place(k, msgnum, content) == Put(k, msgnum, content) && |e.l| + 1 !in k.gaps
    ensures var l' := Put(k, msgnum, content).log;
            && e.l <= l' && |l'| == |e.l| + 1 && CoreOk(e.v, e.stamped, l', Put(k, msgnum, content))
            && EnvOk(e.(l := l')) && Evolves(l', k, Put(k, msgnum, content))
  {
    var k' := Put(k, msgnum, content);
    var l' := k'.log;
    forall g | g in k.gaps
      ensures g <= |e.l| && GapOk(e.v, l', g)
    {
      assert GapOk(e.v, e.l, g);
    }
    assert l' == e.l + [Slot(msgnum, content)];
    CoreStable(e, e.(l := l'), k);
    PutOk(e.v, e.stamped, l', k, msgnum, content);
    forall op: nat | IsNoOp(l', op)
      ensures GapOk(e.v, l', op)
    {
      if op <= |e.l| {
        assert IsNoOp(e.l, op) && GapOk(e.v, e.l, op);
      }
    }
  }

  /** The replica after processing, with nothing being transferred. */
  function Appended(v: View, r: Replica, k: Core, op: nat, content: Content): Replica {
    if content.NoOp? then Moved(r, k) else Moved(r, k).(executed := Max(r.executed, op))
  }

  lemma LeadProcessIs(v: View, r: Replica, msgnum: nat, content: Content)
    requires r.transfer == Idle && |r.core.log| + 1 !in r.core.gaps
    requires Place(r.core, msgnum, content) == Put(r.core, msgnum, content)
    ensures Process(v, v.leader, r, msgnum, content) ==
              (Appended(v, r, Put(r.core, msgnum, content), |r.core.log| + 1, content),
               if content.NoOp? then {} else {Reply(|r.core.log| + 1, v.leader, Id(content.req))})
  {
    var none: set<Message> := {};
    assert content.Op? ==> none + {Reply(|r.core.log| + 1, v.leader, Id(content.req))}
                           == {Reply(|r.core.log| + 1, v.leader, Id(content.req))};
  }

  lemma LeadAppended(e: Env, rs: seq<Replica>, r0: Replica, k': Core, r': Replica)
    requires LeadReady(e, rs) && SameButGaps(rs[e.v.leader], r0)
    requires e.l <= k'.log && |k'.log| == |e.l| + 1 && CoreOk(e.v, e.stamped, k'.log, k') && EnvOk(e.(l := k'.log))
    requires Evolves(k'.log, r0.core, k') && k'.next == NumberOf(e.v, |k'.log| + 1)
    requires r' == Moved(r0, k').(executed := r'.executed) && r'.executed <= |k'.log|
    requires r0.gapCommit ==> IsNoOp(k'.log, |k'.log|)
    ensures (r', {}) in LeadSteps(e, rs)
  {
  }

  lemma AppendedSpeaks(e: Env, rs: seq<Replica>, r0: Replica, msgnum: nat, content: Content, k': Core, r': Replica)
    requires EnvOk(e) && e.v.leader < |rs| && (r', {}) in LeadSteps(e, rs) && r'.core == k'
    requires r0.core.log == e.l && |e.l| + 1 !in r0.core.gaps && k' == Put(r0.core, msgnum, content)
    requires msgnum == NumberOf(e.v, |e.l| + 1) && ContentOk(e.stamped, msgnum, content)
    ensures (r', if content.NoOp? then {} else {Reply(|e.l| + 1, e.v.leader, Id(content.req))}) in LeadSteps(e, rs)
  {
  }

  lemma LeadProcess(e: Env, rs: seq<Replica>, r0: Replica, msgnum: nat, content: Content)
    requires LeadReady(e, rs) && SameButGaps(rs[e.v.leader], r0) && (r0.gapCommit ==> content.NoOp?)
    requires msgnum == NumberOf(e.v, |e.l| + 1) && ContentOk(e.stamped, msgnum, content)
    requires content.NoOp? ==> |e.l| + 1 >= FirstGap(e.v)
    ensures Process(e.v, e.v.leader, r0, msgnum, content) in LeadSteps(e, rs)
    ensures Process(e.v, e.v.leader, r0, msgnum, content).0.core == Put(r0.core, msgnum, content)
  {
    var k := r0.core;
    var k' := Put(k, msgnum, content);
    LeadCore(e, k, msgnum, content);
    LeadProcessIs(e.v, r0, msgnum, content);
    var r' := Appended(e.v, r0, k', |e.l| + 1, content);
    var out := if content.NoOp? then {} else {Reply(|e.l| + 1, e.v.leader, Id(content.req))};
    LeadAppended(e, rs, r0, k', r');
    AppendedSpeaks(e, rs, r0, msgnum, content, k', r');
    assert Process(e.v, e.v.leader, r0, msgnum, content) == (r', out);
  }

  lemma LeadRequest(e: Env, rs: seq<Replica>, msgnum: nat)
    requires LeadReady(e, rs) && 1 <= msgnum <= |e.stamped|
    requires rs[e.v.leader].core.next == 1 ==> msgnum == e.v.start
    ensures HandleRequest(e.v, e.v.leader, rs[e.v.leader], msgnum, e.stamped[msgnum - 1]) in LeadSteps(e, rs)
  {
    var r, req := rs[e.v.leader], e.stamped[msgnum - 1];
    if r.gapCommit || msgnum < r.core.next || (msgnum > r.core.next && r.core.next != 1 && r.gapRequested) {
      LeadSpeaks(e, rs, r, {});
      assert HandleRequest(e.v, e.v.leader, r, msgnum, req) == (r, {});
    } else if msgnum > r.core.next && r.core.next != 1 {
      LeadSpeaks(e, rs, r.(gapRequested := true), {GapRequest(|r.core.log| + 1)});
    } else {
      LeadProcess(e, rs, r, msgnum, Op(req));
      assert HandleRequest(e.v, e.v.leader, r, msgnum, req) == Process(e.v, e.v.leader, r, msgnum, Op(req));
    }
  }

  /** The gap the leader gives up is not the session's first message. */
  lemma LeadGapAgreement(e: Env, rs: seq<Replica>, r0: Replica)
    requires LeadReady(e, rs) && SameButGaps(rs[e.v.leader], r0) && |e.l| + 1 >= FirstGap(e.v)
    ensures StartGapAgreement(e.v, r0) in LeadSteps(e, rs)
  {
    var s := r0.(missing := map[], gapRequested := false, gapCommit := true, gapOKs := {});
    LeadProcess(e, rs, s, s.core.next, NoOp);
    var (t, out) := Process(e.v, e.v.leader, s, s.core.next, NoOp);
    assert StartGapAgreement(e.v, r0) == (t, out + {GapCommit(|t.core.log|)});
  }

  lemma LeadGapFound(e: Env, rs: seq<Replica>, op: nat, content: Content)
    requires LeadReady(e, rs) && MessageOk(e, rs, GapFound(op, content))
    ensures HandleGapFound(e.v, e.v.leader, rs[e.v.leader], op, content) in LeadSteps(e, rs)
  {
    var r := rs[e.v.leader];
    if op == |r.core.log| + 1 && !r.gapCommit {
      LeadProcess(e, rs, r, r.core.next, content);
    } else {
      LeadSpeaks(e, rs, r, {});
    }
  }

  lemma LeadGapMissing(e: Env, rs: seq<Replica>, op: nat, i: nat)
    requires LeadReady(e, rs) && MessageOk(e, rs, GapMissing(op, i))
    ensures HandleGapMissing(e.v, e.v.leader, rs[e.v.leader], op, i) in LeadSteps(e, rs)
  {
    var r := rs[e.v.leader];
    if op == |r.core.log| + 1 && !r.gapCommit {
      var s := r.(missing := AddVote(r.missing, op, i));
      if |s.missing[op]| >= e.v.c.n - 1 {
        LeadGapAgreement(e, rs, s);
      } else {
        LeadSpeaks(e, rs, s, {});
      }
    } else {
      LeadSpeaks(e, rs, r, {});
    }
  }

  /** The leader counts a reply without committing. */
  lemma LeadCounts(e: Env, rs: seq<Replica>, p: nat, i: nat)
    requires LeadReady(e, rs) && VoteOk(e, rs, p, i) && e.committed < p
    ensures var r := rs[e.v.leader]; (r.(syncOKs := AddVote(r.syncOKs, p, i)), {}) in LeadSteps(e, rs)
  {
  }

  lemma LeadSyncReply(e: Env, rs: seq<Replica>, p: nat, i: nat)
    requires LeadReady(e, rs) && MessageOk(e, rs, SyncPrepareReply(p, i))
    ensures HandleSyncPrepareReply(e.v, rs[e.v.leader], p, i) in LeadSteps(e, rs)
  {
    var r := rs[e.v.leader];
    if r.committed >= p || p != r.syncPoint {
      LeadSpeaks(e, rs, r, {});
      assert HandleSyncPrepareReply(e.v, r, p, i) == (r, {});
    } else {
      var s := r.(syncOKs := AddVote(r.syncOKs, p, i));
      LeadCounts(e, rs, p, i);
      if |s.syncOKs[p]| >= QuorumSize(e.v.c) - 1 {
        var res := CommitUpTo(e.v, e.v.leader, s, p);
        LeadTwice(e, rs, s, res);
        assert HandleSyncPrepareReply(e.v, r, p, i) == res;
      } else {
        assert HandleSyncPrepareReply(e.v, r, p, i) == (s, {});
      }
    }
  }

  lemma LeadTwice(e: Env, rs: seq<Replica>, s: Replica, res: (Replica, set<Message>))
    requires e.v.leader < |rs| && s.core == rs[e.v.leader].core && res in LeadSteps(e, rs[e.v.leader := s])
    ensures res in LeadSteps(e, rs)
  {
  }

  lemma LeadSyncPrepare(e: Env, rs: seq<Replica>)
    requires LeadReady(e, rs)
    ensures SendSyncPrepare(rs[e.v.leader]) in LeadSteps(e, rs)
  {
  }

  lemma LeadAnswersTransfer(e: Env, rs: seq<Replica>, i: nat, begin: nat, end: nat)
    requires LeadReady(e, rs) && MessageOk(e, rs, StateTransferRequest(i, begin, end))
    ensures MessagesOk(e, rs, HandleStateTransferRequest(rs[e.v.leader], i, begin, end))
  {
  }

  // The whole system.

  predicate LaterState(v: View, s: System, s': System) {
    && v.leader < |s.replicas| && v.leader < |s'.replicas|
    && Later(EnvOf(v, s), s.replicas, EnvOf(v, s'), s'.replicas)
  }

  /** The invariant holds again, and nothing went back. */
  ghost predicate Keeps(v: View, s: System, s': System) {
    Inv(v, s') && LaterState(v, s, s')
  }

  lemma {:induction false} FollowerKeeps(v: View, s: System, i: nat, r': Replica, out: set<Message>)
    requires Inv(v, s) && i < v.c.n && i != v.leader && RepOk(EnvOf(v, s), i, r')
    requires LogEvolves(EnvOf(v, s).l, s.replicas[i].core, r'.core)
    requires MessagesOk(EnvOf(v, s), s.replicas[i := r'], out)
    ensures Keeps(v, s, s.(replicas := s.replicas[i := r'], sent := s.sent + out))
  {
    var e, rs, rs' := EnvOf(v, s), s.replicas, s.replicas[i := r'];
    MessagesStable(e, rs, e, rs', s.sent);
    VotesStable(e, rs, e, rs', rs[v.leader].syncOKs);
  }

  lemma LeaderKeeps(v: View, s: System, r': Replica, out: set<Message>)
    requires Inv(v, s) && GoodLead(EnvOf(v, s), s.replicas, r', out) && LeadReady(EnvOf(v, s), s.replicas)
    ensures Keeps(v, s, s.(replicas := s.replicas[v.leader := r'], sent := s.sent + out))
  {
    var e, rs, rs' := EnvOf(v, s), s.replicas, s.replicas[v.leader := r'];
    MessagesStable(e, rs, LeadEnv(e, r'), rs', s.sent);
    forall i | 0 <= i < v.c.n
      ensures RepOk(LeadEnv(e, r'), i, rs'[i])
    {
      if i != v.leader {
        RepStable(e, LeadEnv(e, r'), i, rs[i]);
      }
    }
  }

  lemma StampKeeps(v: View, s: System, req: Request)
    requires Inv(v, s)
    ensures Keeps(v, s, s.(stamped := s.stamped + [req]))
  {
    var s' := s.(stamped := s.stamped + [req]);
    var e, e', rs := EnvOf(v, s), EnvOf(v, s'), s.replicas;
    LogStable(v, e.stamped, e'.stamped, e.l);
    assert Later(e, rs, e', rs);
    MessagesStable(e, rs, e', rs, s.sent);
    VotesStable(e, rs, e', rs, rs[v.leader].syncOKs);
    forall i | 0 <= i < v.c.n
      ensures RepOk(e', i, rs[i])
    {
      RepStable(e, e', i, rs[i]);
    }
  }

  lemma FollowerReceives(e: Env, rs: seq<Replica>, i: nat, m: Message)
    requires Ready(e, rs, i) && MessageOk(e, rs, m) && Readable(i, rs[i], m)
    ensures Receive(e.v, i, rs[i], m) in GoodSteps(e, rs, i)
  {
    var r := rs[i];
    match m
    case GapRequest(op) =>
      GapAnswer(e, rs, i, op);
    case GapFound(op, content) => FollowerGapFound(e, rs, i, op, content);
    case GapCommit(op) => FollowerGapCommit(e, rs, i, op);
    case SyncPrepare(point, gaps) =>
      if r.committed < point {
        FollowerSyncPrepare(e, rs, i, point, gaps);
      } else {
        assert HandleSyncPrepare(e.v, i, r, point, gaps) == (r, {});
      }
    case SyncCommit(point) => FollowerSyncCommit(e, rs, i, point);
    case StateTransferReply(dst, begin, entries) =>
      if dst == i {
        FollowerTransferReply(e, rs, i, begin, entries);
        var res := HandleStateTransferReply(e.v, i, r, begin, entries);
        assert Receive(e.v, i, r, m) == (res.replica, res.out);
      }
    case _ =>
      assert Receive(e.v, i, r, m) == (r, {});
  }

  lemma LeadMissing(e: Env, rs: seq<Replica>, op: nat, i: nat)
    requires LeadReady(e, rs) && MessageOk(e, rs, GapMissing(op, i))
    ensures Receive(e.v, e.v.leader, rs[e.v.leader], GapMissing(op, i)) in LeadSteps(e, rs)
  {
    if i == e.v.leader {
      LeadSpeaks(e, rs, rs[e.v.leader], {});
    } else {
      LeadGapMissing(e, rs, op, i);
    }
  }

  lemma LeadGapReply(e: Env, rs: seq<Replica>, op: nat, i: nat)
    requires LeadReady(e, rs)
    ensures Receive(e.v, e.v.leader, rs[e.v.leader], GapCommitReply(op, i)) in LeadSteps(e, rs)
  {
    LeadSpeaks(e, rs, HandleGapCommitReply(e.v, rs[e.v.leader], op, i), {});
  }

  lemma LeadReceives(e: Env, rs: seq<Replica>, m: Message)
    requires LeadReady(e, rs) && MessageOk(e, rs, m) && Readable(e.v.leader, rs[e.v.leader], m)
    ensures Receive(e.v, e.v.leader, rs[e.v.leader], m) in LeadSteps(e, rs)
  {
    var i, r := e.v.leader, rs[e.v.leader];
    match m
    case GapRequest(op) =>
      GapAnswer(e, rs, i, op);
      LeadSpeaks(e, rs, r, HandleGapRequest(i, r, op));
    case GapFound(op, content) => LeadGapFound(e, rs, op, content);
    case GapMissing(op, replica) => LeadMissing(e, rs, op, replica);
    case GapCommitReply(op, replica) => LeadGapReply(e, rs, op, replica);
    case SyncPrepareReply(point, replica) => LeadSyncReply(e, rs, point, replica);
    case SyncPrepareRequest => LeadSpeaks(e, rs, r, HandleSyncPrepareRequest(r));
    case StateTransferRequest(from, begin, end) =>
      LeadAnswersTransfer(e, rs, from, begin, end);
      LeadSpeaks(e, rs, r, HandleStateTransferRequest(r, from, begin, end));
    case _ =>
      LeadSpeaks(e, rs, r, {});
      assert Receive(e.v, i, r, m) == (r, {});
  }

  /** Any replica acting within the view by a good step. */
  lemma ActKeeps(v: View, s: System, s': System, i: nat, res: (Replica, set<Message>))
    requires Inv(v, s) && Acts(s, s', i, res.0, res.1)
    requires if i == v.leader then res in LeadSteps(EnvOf(v, s), s.replicas)
             else res in GoodSteps(EnvOf(v, s), s.replicas, i)
    ensures Keeps(v, s, s')
  {
    if i == v.leader {
      LeaderKeeps(v, s, res.0, res.1);
    } else {
      FollowerKeeps(v, s, i, res.0, res.1);
    }
  }

  lemma LeaveKeeps(v: View, s: System, s': System, i: nat)
    requires Inv(v, s) && i < v.c.n && Acts(s, s', i, Leave(s.replicas[i]), {})
    ensures Keeps(v, s, s')
  {
    if i == v.leader {
      assert s' == s.(replicas := s.replicas[v.leader := Leave(s.replicas[v.leader])]);
    } else {
      FollowerKeeps(v, s, i, Leave(s.replicas[i]), {});
    }
  }

  lemma LeadTimerGood(e: Env, rs: seq<Replica>)
    requires LeadReady(e, rs)
    ensures GapTimeout(e.v, e.v.leader, rs[e.v.leader]) in LeadSteps(e, rs)
    ensures (rs[e.v.leader], TransferTimeout(e.v.leader, rs[e.v.leader])) in LeadSteps(e, rs)
  {
    var r := rs[e.v.leader];
    LeadSpeaks(e, rs, r, {});
    if r.gapRequested {
      LeadGapAgreement(e, rs, r);
    } else {
      assert GapTimeout(e.v, e.v.leader, r) == (r, {});
    }
  }

  lemma CommitTimerKeeps(v: View, s: System, s': System)
    requires Inv(v, s) && Next(v, s, s', GapCommitTimer)
    ensures Keeps(v, s, s')
  {
    var e, rs, r := EnvOf(v, s), s.replicas, s.replicas[v.leader];
    var out := if r.gapCommit then {GapCommit(|r.core.log|)} else {};
    assert r.gapCommit ==> GapOk(v, e.l, |e.l|);
    LeadSpeaks(e, rs, r, out);
    ActKeeps(v, s, s', v.leader, (r, out));
  }

  lemma ArriveKeeps(v: View, s: System, s': System, i: nat, msgnum: nat)
    requires Inv(v, s) && Next(v, s, s', Arrive(i, msgnum))
    ensures Keeps(v, s, s')
  {
    var e, rs := EnvOf(v, s), s.replicas;
    if i == v.leader {
      LeadRequest(e, rs, msgnum);
    } else {
      FollowerRequest(e, rs, i, msgnum);
    }
    ActKeeps(v, s, s', i, HandleRequest(v, i, rs[i], msgnum, s.stamped[msgnum - 1]));
  }

  lemma DeliverKeeps(v: View, s: System, s': System, i: nat, m: Message)
    requires Inv(v, s) && Next(v, s, s', Deliver(i, m))
    ensures Keeps(v, s, s')
  {
    var e, rs := EnvOf(v, s), s.replicas;
    if i == v.leader {
      LeadReceives(e, rs, m);
    } else {
      FollowerReceives(e, rs, i, m);
    }
    ActKeeps(v, s, s', i, Receive(v, i, rs[i], m));
  }

  lemma GapTimerKeeps(v: View, s: System, s': System, i: nat)
    requires Inv(v, s) && Next(v, s, s', GapTimer(i))
    ensures Keeps(v, s, s')
  {
    var e, rs := EnvOf(v, s), s.replicas;
    if i == v.leader {
      LeadTimerGood(e, rs);
    }
    ActKeeps(v, s, s', i, GapTimeout(v, i, rs[i]));
  }

  lemma TransferTimerKeeps(v: View, s: System, s': System, i: nat)
    requires Inv(v, s) && Next(v, s, s', TransferTimer(i))
    ensures Keeps(v, s, s')
  {
    var e, rs := EnvOf(v, s), s.replicas;
    if i == v.leader {
      LeadTimerGood(e, rs);
    }
    ActKeeps(v, s, s', i, (rs[i], TransferTimeout(i, rs[i])));
  }

  lemma SyncTimerKeeps(v: View, s: System, s': System)
    requires Inv(v, s) && Next(v, s, s', SyncTimer)
    ensures Keeps(v, s, s')
  {
    LeadSyncPrepare(EnvOf(v, s), s.replicas);
    ActKeeps(v, s, s', v.leader, SendSyncPrepare(s.replicas[v.leader]));
  }

  /** Every step keeps the invariant. */
  lemma InvNext(v: View, s: System, s': System, step: Step)
    requires Inv(v, s) && Next(v, s, s', step)
    ensures Keeps(v, s, s')
  {
    match step
    case Stamp(req) => StampKeeps(v, s, req);
    case Arrive(i, msgnum) => ArriveKeeps(v, s, s', i, msgnum);
    case Deliver(i, m) => DeliverKeeps(v, s, s', i, m);
    case GapTimer(i) => GapTimerKeeps(v, s, s', i);
    case TransferTimer(i) => TransferTimerKeeps(v, s, s', i);
    case GapCommitTimer => CommitTimerKeeps(v, s, s');
    case SyncTimer => SyncTimerKeeps(v, s, s');
    case LeaveView(i) => LeaveKeeps(v, s, s', i);
  }
}

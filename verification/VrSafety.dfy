/** Safety of Viewstamped Replication within a view, over every run. */
module VrSafety {
  import opened Numbers
  import opened Quorums
  import opened Logs
  import opened Vr

  /** What followers are measured against: the leader's log and commit point. */
  datatype Env = Env(v: View, l: seq<Request>, committed: nat)

  function EnvOf(v: View, s: System): Env
    requires v.leader < |s.replicas|
  {
    Env(v, s.replicas[v.leader].log, s.replicas[v.leader].committed)
  }

  // The invariant.

  /** The entries stand in the log from position `b` on. */
  predicate PartOf(l: seq<Request>, b: nat, entries: seq<Request>) {
    b + |entries| <= |l| && forall j :: 0 <= j < |entries| ==> entries[j] == l[b + j]
  }

  /** A replica's log is a prefix of the leader's that contains the base; it has executed what it committed. */
  predicate RepOk(e: Env, r: Replica) {
    && |e.v.base| <= |r.log| && PartOf(e.l, 0, r.log)
    && r.committed <= |r.log| && r.executed == r.log[..r.committed] && r.committed <= Max(|e.v.base|, e.committed)
    && r.lastBatchEnd <= |r.log|
  }

  predicate MessageOk(e: Env, rs: seq<Replica>, m: Message) {
    match m
    case Prepare(start, op, reqs) => 1 <= start <= op && |reqs| == op - start + 1 && PartOf(e.l, start - 1, reqs)
    case PrepareOK(op, i) => VoteOk(e, rs, op, i)
    case Commit(op) => op <= e.committed
    case RequestStateTransfer(i, op) => i < |rs| && i != e.v.leader && op <= rs[i].committed
    case StateTransfer(i, begin, entries, committed) =>
      && i < |rs| && 1 <= begin <= rs[i].committed + 1 && begin - 1 <= |e.l| && PartOf(e.l, begin - 1, entries)
      && committed <= begin - 1 + |entries| && committed <= Max(|e.v.base|, e.committed)
  }

  predicate MessagesOk(e: Env, rs: seq<Replica>, ms: set<Message>) {
    forall m :: m in ms ==> MessageOk(e, rs, m)
  }

  predicate VoteOk(e: Env, rs: seq<Replica>, op: nat, i: nat) {
    i < |rs| && i != e.v.leader && 1 <= op <= |rs[i].log|
  }

  predicate VotesOk(e: Env, rs: seq<Replica>, votes: map<nat, set<nat>>) {
    forall op: nat, i: nat {:trigger i in votes[op]} :: op in votes && i in votes[op] ==> VoteOk(e, rs, op, i)
  }

  predicate CommitVoted(v: View, r: Replica) {
    r.committed <= |v.base| || (r.committed in r.oks && |r.oks[r.committed]| >= QuorumSize(v.c) - 1)
  }

  /** Closed batches follow one another without gap or overlap, from the base up to the last batch's end. */
  predicate BatchesOk(v: View, batches: seq<(nat, nat)>, lastBatchEnd: nat) {
    && (forall k :: 0 <= k < |batches| ==> BatchAt(v, batches, k))
    && lastBatchEnd == EndOf(v, batches, |batches|)
  }

  /** Where the first k batches end. */
  function EndOf(v: View, batches: seq<(nat, nat)>, k: nat): nat
    requires k <= |batches|
  {
    if k == 0 then |v.base| else batches[k - 1].1
  }

  predicate BatchAt(v: View, batches: seq<(nat, nat)>, k: nat)
    requires k < |batches|
  {
    batches[k].0 == EndOf(v, batches, k) + 1 && batches[k].0 <= batches[k].1
  }

  predicate LeaderOk(e: Env, rs: seq<Replica>, r: Replica) {
    && VotesOk(e, rs, r.oks) && CommitVoted(e.v, r) && InClientOrder(e.l, r.table)
    && (r.lastPrepare.Some? ==> r.lastPrepare.value.Prepare? && MessageOk(e, rs, r.lastPrepare.value))
  }

  ghost predicate Inv(v: View, s: System) {
    && ValidConfig(v.c) && |s.replicas| == v.c.n && v.leader < v.c.n
    && (forall i :: 0 <= i < v.c.n ==> RepOk(EnvOf(v, s), s.replicas[i]))
    && MessagesOk(EnvOf(v, s), s.replicas, s.sent)
    && LeaderOk(EnvOf(v, s), s.replicas, s.replicas[v.leader])
    && BatchesOk(v, s.batches, s.replicas[v.leader].lastBatchEnd)
  }

  // Stability.

  predicate Evolves(r: Replica, r': Replica) {
    PartOf(r'.log, 0, r.log) && r.committed <= r'.committed
  }

  predicate Later(e: Env, rs: seq<Replica>, e': Env, rs': seq<Replica>) {
    && e'.v == e.v && PartOf(e'.l, 0, e.l) && e.committed <= e'.committed
    && |rs| == |rs'| && forall i :: 0 <= i < |rs| ==> Evolves(rs[i], rs'[i])
  }

  // Followers.

  ghost predicate GoodStep(e: Env, rs: seq<Replica>, i: nat, r': Replica, out: set<Message>)
    requires i < |rs|
  {
    RepOk(e, r') && Evolves(rs[i], r') && MessagesOk(e, rs[i := r'], out)
  }

  ghost function GoodSteps(e: Env, rs: seq<Replica>, i: nat): iset<(Replica, set<Message>)>
    requires i < |rs|
  {
    iset res: (Replica, set<Message>) | GoodStep(e, rs, i, res.0, res.1)
  }

  ghost predicate Ready(e: Env, rs: seq<Replica>, i: nat) {
    i < |rs| && i != e.v.leader && RepOk(e, rs[i]) && e.committed <= |e.l|
  }

  lemma CommitOk(e: Env, r: Replica, upto: nat)
    requires RepOk(e, r) && upto <= |r.log| && upto <= Max(|e.v.base|, e.committed)
    ensures RepOk(e, CommitUpTo(r, upto)) && Evolves(r, CommitUpTo(r, upto)) && CommitUpTo(r, upto).log == r.log
  {
  }

  lemma FollowerPrepare(e: Env, rs: seq<Replica>, i: nat, start: nat, op: nat, reqs: seq<Request>)
    requires Ready(e, rs, i) && MessageOk(e, rs, Prepare(start, op, reqs))
    ensures HandlePrepare(i, rs[i], start, op, reqs) in GoodSteps(e, rs, i)
  {
  }

  lemma FollowerTransfer(e: Env, rs: seq<Replica>, i: nat, begin: nat, entries: seq<Request>, committed: nat)
    requires Ready(e, rs, i) && MessageOk(e, rs, StateTransfer(i, begin, entries, committed))
    ensures HandleStateTransfer(i, rs[i], begin, entries, committed) in GoodSteps(e, rs, i)
  {
    var r := rs[i];
    var t := TakeOver(r, begin, entries);
    CommitOk(e, t, committed);
    var (r', out) := HandleStateTransfer(i, r, begin, entries, committed);
    assert r' == CommitUpTo(t, committed).(table := r'.table);
    forall m | m in out
      ensures MessageOk(e, rs[i := r'], m)
    {
    }
  }

  /** Any replica's answer to a transfer request is part of the leader's log. */
  lemma TransferAnswer(e: Env, rs: seq<Replica>, k: nat, i: nat, op: nat)
    requires k < |rs| && RepOk(e, rs[k]) && MessageOk(e, rs, RequestStateTransfer(i, op)) && RepOk(e, rs[i])
    ensures MessagesOk(e, rs, HandleRequestStateTransfer(rs[k], i, op))
  {
  }

  // The leader.

  function LeadEnv(e: Env, r: Replica): Env {
    Env(e.v, r.log, r.committed)
  }

  ghost predicate LeadReady(e: Env, rs: seq<Replica>) {
    && ValidConfig(e.v.c) && e.v.leader < |rs| && e == LeadEnv(e, rs[e.v.leader])
    && RepOk(e, rs[e.v.leader]) && LeaderOk(e, rs, rs[e.v.leader])
  }

  ghost predicate GoodLead(e: Env, rs: seq<Replica>, r': Replica, out: set<Message>)
    requires e.v.leader < |rs|
  {
    && Evolves(rs[e.v.leader], r') && rs[e.v.leader].lastBatchEnd <= r'.lastBatchEnd
    && RepOk(LeadEnv(e, r'), r') && LeaderOk(LeadEnv(e, r'), rs[e.v.leader := r'], r')
    && MessagesOk(LeadEnv(e, r'), rs[e.v.leader := r'], out)
  }

  ghost function LeadSteps(e: Env, rs: seq<Replica>): iset<(Replica, set<Message>)>
    requires e.v.leader < |rs|
  {
    iset res: (Replica, set<Message>) | GoodLead(e, rs, res.0, res.1)
  }

  lemma LeadSpeaks(e: Env, rs: seq<Replica>, out: set<Message>)
    requires LeadReady(e, rs) && MessagesOk(e, rs, out)
    ensures (rs[e.v.leader], out) in LeadSteps(e, rs)
  {
  }

  lemma PartOfLonger(l: seq<Request>, l': seq<Request>, b: nat, entries: seq<Request>)
    requires PartOf(l', 0, l) && PartOf(l, b, entries)
    ensures PartOf(l', b, entries)
  {
  }

  lemma MessagesStable(e: Env, rs: seq<Replica>, e': Env, rs': seq<Replica>, ms: set<Message>)
    requires Later(e, rs, e', rs') && MessagesOk(e, rs, ms)
    ensures MessagesOk(e', rs', ms)
  {
    forall m | m in ms
      ensures MessageOk(e', rs', m)
    {
      assert MessageOk(e, rs, m);
      if m.Prepare? {
        PartOfLonger(e.l, e'.l, m.start - 1, m.reqs);
      } else if m.StateTransfer? {
        PartOfLonger(e.l, e'.l, m.begin - 1, m.entries);
      }
    }
  }

  lemma LeadLater(e: Env, rs: seq<Replica>, r': Replica)
    requires e.v.leader < |rs| && e == LeadEnv(e, rs[e.v.leader]) && Evolves(rs[e.v.leader], r')
    ensures Later(e, rs, LeadEnv(e, r'), rs[e.v.leader := r'])
  {
  }

  lemma LeadTwice(e: Env, rs: seq<Replica>, s: Replica, out: set<Message>, t: Replica, more: set<Message>)
    requires LeadReady(e, rs) && (s, out) in LeadSteps(e, rs)
    requires (t, more) in LeadSteps(LeadEnv(e, s), rs[e.v.leader := s])
    ensures (t, out + more) in LeadSteps(e, rs)
  {
    var e1, rs1 := LeadEnv(e, s), rs[e.v.leader := s];
    assert rs1[e.v.leader := t] == rs[e.v.leader := t];
    LeadLater(e1, rs1, t);
    MessagesStable(e1, rs1, LeadEnv(e1, t), rs1[e.v.leader := t], out);
    PartOfLonger(s.log, t.log, 0, rs[e.v.leader].log);
  }

  lemma LeadClose(e: Env, rs: seq<Replica>)
    requires LeadReady(e, rs) && rs[e.v.leader].lastBatchEnd < |e.l|
    ensures CloseBatch(rs[e.v.leader]) in LeadSteps(e, rs)
  {
  }

  /** The leader's bookkeeping of a request. */
  lemma LeadAppend(e: Env, rs: seq<Replica>, req: Request, res: string)
    requires LeadReady(e, rs) && Accepts(rs[e.v.leader].table, req)
    ensures var r := rs[e.v.leader];
            (r.(table := Record(r.table, req), log := r.log + [req.(op := res)]), {}) in LeadSteps(e, rs)
  {
  }

  lemma LeadRefuse(e: Env, rs: seq<Replica>, req: Request)
    requires LeadReady(e, rs) && Accepts(rs[e.v.leader].table, req)
    ensures var r := rs[e.v.leader]; (r.(table := Record(r.table, req)), {}) in LeadSteps(e, rs)
  {
  }

  lemma LeadRequest(e: Env, rs: seq<Replica>, req: Request, replicate: bool, res: string)
    requires LeadReady(e, rs)
    ensures HandleRequest(e.v, rs[e.v.leader], req, replicate, res) in LeadSteps(e, rs)
  {
    var r := rs[e.v.leader];
    if !Accepts(r.table, req) {
      LeadSpeaks(e, rs, {});
    } else if !replicate {
      LeadRefuse(e, rs, req);
    } else {
      var t := r.(table := Record(r.table, req), log := r.log + [req.(op := res)]);
      LeadAppend(e, rs, req, res);
      if t.batchComplete || |t.log| - t.lastBatchEnd + 1 > e.v.batchSize {
        LeadClose(LeadEnv(e, t), rs[e.v.leader := t]);
        var (u, out) := CloseBatch(t);
        LeadTwice(e, rs, t, {}, u, out);
        assert {} + out == out;
        assert HandleRequest(e.v, r, req, replicate, res) == (u, out);
      } else {
        assert HandleRequest(e.v, r, req, replicate, res) == (t, {});
      }
    }
  }

  lemma LeadCounts(e: Env, rs: seq<Replica>, op: nat, i: nat)
    requires LeadReady(e, rs) && VoteOk(e, rs, op, i)
    ensures var r := rs[e.v.leader]; (r.(oks := AddVote(r.oks, op, i)), {}) in LeadSteps(e, rs)
  {
    var r := rs[e.v.leader];
    var r' := r.(oks := AddVote(r.oks, op, i));
    StillVoted(e.v, r, op, i);
  }

  lemma StillVoted(v: View, r: Replica, op: nat, i: nat)
    requires CommitVoted(v, r)
    ensures CommitVoted(v, r.(oks := AddVote(r.oks, op, i)))
  {
    if r.committed > |v.base| {
      SubsetCount(r.oks[r.committed], AddVote(r.oks, op, i)[r.committed]);
    }
  }

  predicate TableGrows(t: map<nat, nat>, u: map<nat, nat>) {
    forall k :: k in t ==> k in u && t[k] <= u[k]
  }

  lemma {:induction false} RecordAllGrows(t: map<nat, nat>, reqs: seq<Request>)
    ensures TableGrows(t, RecordAll(t, reqs))
    decreases |reqs|
  {
    if reqs != [] {
      RecordAllGrows(t, reqs[..|reqs| - 1]);
    }
  }

  lemma LeadCommits(e: Env, rs: seq<Replica>, op: nat)
    requires LeadReady(e, rs) && op <= |e.l|
    requires op in rs[e.v.leader].oks && |rs[e.v.leader].oks[op]| >= QuorumSize(e.v.c) - 1
    ensures (CommitUpTo(rs[e.v.leader], op), {}) in LeadSteps(e, rs)
  {
    var r := rs[e.v.leader];
    var r' := CommitUpTo(r, op);
    if op <= r.committed {
      LeadSpeaks(e, rs, {});
    } else {
      RecordAllGrows(r.table, r.log[r.committed..op]);
      assert r.log[..op] == r.log[..r.committed] + r.log[r.committed..op];
    }
  }

  lemma LeadAnnounces(e: Env, rs: seq<Replica>, op: nat)
    requires LeadReady(e, rs)
    ensures AfterCommit(rs[e.v.leader], op) in LeadSteps(e, rs)
  {
  }

  lemma LeadPrepareOK(e: Env, rs: seq<Replica>, op: nat, i: nat)
    requires LeadReady(e, rs) && VoteOk(e, rs, op, i) && op <= |e.l|
    ensures HandlePrepareOK(e.v, rs[e.v.leader], op, i) in LeadSteps(e, rs)
  {
    var r := rs[e.v.leader];
    var s := r.(oks := AddVote(r.oks, op, i));
    LeadCounts(e, rs, op, i);
    if |s.oks[op]| < QuorumSize(e.v.c) - 1 {
      assert HandlePrepareOK(e.v, r, op, i) == (s, {});
    } else {
      var e1, rs1 := LeadEnv(e, s), rs[e.v.leader := s];
      LeadCommits(e1, rs1, op);
      var t := CommitUpTo(s, op);
      var none: set<Message> := {};
      LeadTwice(e, rs, s, none, t, none);
      assert none + none == none;
      if |s.oks[op]| >= QuorumSize(e.v.c) {
        assert HandlePrepareOK(e.v, r, op, i) == (t, {});
      } else {
        LeadAnnounces(LeadEnv(e, t), rs[e.v.leader := t], op);
        var (u, out) := AfterCommit(t, op);
        LeadTwice(e, rs, t, {}, u, out);
        assert {} + out == out;
        assert HandlePrepareOK(e.v, r, op, i) == (u, out);
      }
    }
  }
}

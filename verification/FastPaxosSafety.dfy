/** Agreement of Fast Paxos over every run, and what a quorum of replies means. */
module FastPaxosSafety {
  import opened Numbers
  import opened Quorums
  import opened Logs
  import opened FastPaxos

  /** The leader's log, which only grows. */
  function LeaderLog(s: System): seq<Request>
    requires LEADER < |s.replicas|
  {
    s.replicas[LEADER].log
  }

  // The invariant.

  /** A replica's slow path is a prefix of the leader's log `l`, and it has executed a prefix of it. */
  predicate Follows(l: seq<Request>, r: Replica) {
    && InBounds(r)
    && AgreeUpTo(l, r.log, r.lastSlowPath)
    && r.executed == r.log[..r.lastCommitted]
  }

  /** The first n operations are the leader's. */
  predicate AgreeUpTo(l: seq<Request>, log: seq<Request>, n: nat) {
    n <= |l| && n <= |log| && forall k :: 0 <= k < n ==> log[k] == l[k]
  }

  /** Operation `op` of the replica is the leader's. */
  predicate HoldsLeaders(l: seq<Request>, r: Replica, op: nat) {
    1 <= op <= |l| && op <= |r.log| && r.log[op - 1] == l[op - 1]
  }

  predicate MessageOk(l: seq<Request>, rs: seq<Replica>, m: Message)
    requires LEADER < |rs|
  {
    match m
    case ClientRequest(req) => true
    case Prepare(op, req) => 1 <= op <= |l| && req == l[op - 1]
    case PrepareOK(op, i, slowpath, req) =>
      && 1 <= op && i != LEADER && i < |rs|
      && if slowpath then op <= rs[i].lastSlowPath && op <= |l| && req == l[op - 1]
         else op <= |rs[i].log| && (rs[i].log[op - 1] == req || HoldsLeaders(l, rs[i], op))
    case Commit(op, req) => 1 <= op <= rs[LEADER].lastCommitted && op <= |l| && req == l[op - 1]
    case RequestStateTransfer(i, op) => i < |rs| && i != LEADER && op <= rs[i].lastCommitted
    case StateTransfer(i, begin, entries, committed) =>
      && i < |rs| && 1 <= begin <= rs[i].lastCommitted + 1
      && PartOf(l, begin - 1, entries) && committed <= begin - 1 + |entries|
  }

  /** The entries stand in the leader's log from position `b` on. */
  predicate PartOf(l: seq<Request>, b: nat, entries: seq<Request>) {
    b + |entries| <= |l| && forall j :: 0 <= j < |entries| ==> entries[j] == l[b + j]
  }

  /** The followers counted for an operation hold the leader's request there. */
  predicate VotesOk(l: seq<Request>, rs: seq<Replica>, votes: map<nat, set<nat>>, slowpath: bool) {
    forall op: nat, i: nat {:trigger i in votes[op]} :: op in votes && i in votes[op] ==> VoteOk(l, rs, op, i, slowpath)
  }

  /** On the slow path they hold everything before it as well. */
  predicate VoteOk(l: seq<Request>, rs: seq<Replica>, op: nat, i: nat, slowpath: bool) {
    i != LEADER && i < |rs| && HoldsLeaders(l, rs[i], op) && (slowpath ==> op <= rs[i].lastSlowPath)
  }

  predicate Named(sent: set<Message>) {
    forall m, m' :: m in sent && m' in sent && m.ClientRequest? && m'.ClientRequest? && Id(m.req) == Id(m'.req) ==>
      m == m'
  }

  predicate Known(sent: set<Message>, req: Request) {
    ClientRequest(req) in sent
  }

  /** Everything in a log or on its way into one was sent by a client. */
  predicate AllKnown(s: System) {
    && (forall i, k :: 0 <= i < |s.replicas| && 0 <= k < |s.replicas[i].log| ==> Known(s.sent, s.replicas[i].log[k]))
    && (forall m :: m in s.sent && m.PrepareOK? ==> Known(s.sent, m.req))
  }

  /** Along a log, each client's request numbers increase, and the table has reached them. */
  predicate InClientOrder(log: seq<Request>, table: map<nat, nat>) {
    && (forall i, j :: 0 <= i < j < |log| && log[i].clientid == log[j].clientid ==>
          log[i].clientreqid < log[j].clientreqid)
    && (forall i :: 0 <= i < |log| ==> log[i].clientid in table && log[i].clientreqid <= table[log[i].clientid])
  }

  /** The operation at the leader's commit point got a quorum of replies. */
  predicate CommitVoted(c: Config, r: Replica) {
    r.lastCommitted > 0 ==>
      || |VotesFor(r, r.lastCommitted, true)| >= Required(c, true)
      || |VotesFor(r, r.lastCommitted, false)| >= Required(c, false)
  }

  ghost predicate Inv(c: Config, s: System) {
    && |s.replicas| == c.n && LEADER < c.n
    && (forall i :: 0 <= i < c.n ==> Follows(LeaderLog(s), s.replicas[i]))
    && (forall m :: m in s.sent ==> MessageOk(LeaderLog(s), s.replicas, m))
    && LeaderOk(c, s.replicas)
    && Named(s.sent) && AllKnown(s)
  }

  predicate LeaderOk(c: Config, rs: seq<Replica>)
    requires LEADER < |rs|
  {
    var r := rs[LEADER];
    && r.lastSlowPath == |r.log|
    && VotesOk(r.log, rs, r.slowOKs, true) && VotesOk(r.log, rs, r.fastOKs, false)
    && InClientOrder(r.log, r.clientTable)
    && CommitVoted(c, r)
  }

  // How a replica may change.

  /** Counters grow, and an entry changes only to become the leader's. */
  predicate Evolves(l: seq<Request>, r: Replica, r': Replica) {
    && r.lastCommitted <= r'.lastCommitted && r.lastSlowPath <= r'.lastSlowPath && |r.log| <= |r'.log|
    && forall k :: 0 <= k < |r.log| ==> r'.log[k] == r.log[k] || (k < |l| && r'.log[k] == l[k])
  }

  predicate AllEvolve(l: seq<Request>, rs: seq<Replica>, rs': seq<Replica>) {
    |rs| == |rs'| && forall i :: 0 <= i < |rs| ==> Evolves(l, rs[i], rs'[i])
  }

  // What each handler keeps. `l` is the leader's log.

  lemma ExecuteFollows(l: seq<Request>, r: Replica, upto: nat)
    requires Follows(l, r) && upto <= r.lastFastPath
    requires r.lastSlowPath < upto ==> AgreeUpTo(l, r.log, upto)
    ensures Follows(l, CommitUpTo(r, upto)) && Evolves(l, r, CommitUpTo(r, upto))
    ensures CommitUpTo(r, upto).log == r.log
  {
  }

  lemma AdoptFollows(l: seq<Request>, r: Replica, req: Request)
    requires Follows(l, r) && r.lastSlowPath < |l| && req == l[r.lastSlowPath]
    ensures Follows(l, Adopt(r, req)) && Evolves(l, r, Adopt(r, req))
  {
  }

  lemma AdoptAfter(l: seq<Request>, r: Replica, mid: Replica, req: Request)
    requires Follows(l, mid) && Evolves(l, r, mid) && mid.lastSlowPath < |l| && req == l[mid.lastSlowPath]
    ensures Follows(l, Adopt(mid, req)) && Evolves(l, r, Adopt(mid, req))
  {
  }

  /** One more entry of the answer, after `n` of them. */
  lemma TakeOneOver(l: seq<Request>, r: Replica, mid: Replica, begin: nat, n: nat)
    requires Follows(l, mid) && Evolves(l, r, mid) && 1 <= begin && begin - 1 + n < |l|
    requires mid.lastSlowPath <= Max(r.lastSlowPath, begin - 1 + n)
    requires begin + n > mid.lastSlowPath ==> mid.lastSlowPath == begin - 1 + n
    ensures var out := if begin + n > mid.lastSlowPath then Adopt(mid, l[begin - 1 + n]) else mid;
            Follows(l, out) && Evolves(l, r, out) && out.lastSlowPath <= Max(r.lastSlowPath, begin + n)
  {
    if begin + n > mid.lastSlowPath {
      AdoptAfter(l, r, mid, l[begin - 1 + n]);
    }
  }

  lemma {:induction false} TakeOverFollows(l: seq<Request>, r: Replica, begin: nat, entries: seq<Request>)
    requires Follows(l, r) && 1 <= begin <= r.lastCommitted + 1
    requires PartOf(l, begin - 1, entries)
    ensures Follows(l, TakeOver(r, begin, entries)) && Evolves(l, r, TakeOver(r, begin, entries))
    ensures TakeOver(r, begin, entries).lastSlowPath <= Max(r.lastSlowPath, begin - 1 + |entries|)
    decreases |entries|
  {
    if entries == [] {
      assert TakeOver(r, begin, entries) == r;
    } else {
      var n := |entries| - 1;
      assert entries[n] == l[begin - 1 + n];
      TakeOverFollows(l, r, begin, entries[..n]);
      TakeOneOver(l, r, TakeOver(r, begin, entries[..n]), begin, n);
    }
  }

  predicate MessagesOk(l: seq<Request>, rs: seq<Replica>, ms: set<Message>)
    requires LEADER < |rs|
  {
    forall m :: m in ms ==> MessageOk(l, rs, m)
  }

  /** A new log content comes from the old log, the leader's log or the request at hand. */
  predicate LogFrom(r: Replica, r': Replica, l: seq<Request>, extra: seq<Request>) {
    forall k :: 0 <= k < |r'.log| ==> r'.log[k] in r.log || r'.log[k] in l || r'.log[k] in extra
  }

  predicate RepliesFrom(ms: set<Message>, r: Replica) {
    forall m :: m in ms && m.PrepareOK? ==> m.req in r.log
  }

  /** What a handler at follower `i` keeps, with `l` the leader's log. */
  predicate GoodFollowerStep(l: seq<Request>, rs: seq<Replica>, i: nat, r': Replica, out: set<Message>,
                             extra: seq<Request>)
    requires LEADER < i < |rs|
  {
    && Follows(l, r') && Evolves(l, rs[i], r')
    && MessagesOk(l, rs[i := r'], out)
    && LogFrom(rs[i], r', l, extra) && RepliesFrom(out, r')
    && forall m :: m in out ==> !m.ClientRequest?
  }

  /** The results, new state and messages, that keep it. */
  ghost function FollowerSteps(l: seq<Request>, rs: seq<Replica>, i: nat,
                               extra: seq<Request>): iset<(Replica, set<Message>)>
    requires LEADER < i < |rs|
  {
    iset res: (Replica, set<Message>) | GoodFollowerStep(l, rs, i, res.0, res.1, extra)
  }

  lemma FollowerAdopts(l: seq<Request>, rs: seq<Replica>, i: nat, req: Request)
    requires LEADER < i < |rs| && Follows(l, rs[i]) && rs[i].lastSlowPath < |l| && req == l[rs[i].lastSlowPath]
    ensures HandlePrepare(i, rs[i], rs[i].lastSlowPath + 1, req) in FollowerSteps(l, rs, i, [])
  {
    AdoptFollows(l, rs[i], req);
  }

  lemma FollowerPrepare(l: seq<Request>, rs: seq<Replica>, i: nat, op: nat, req: Request)
    requires LEADER < i < |rs| && Follows(l, rs[i]) && MessageOk(l, rs, Prepare(op, req))
    ensures HandlePrepare(i, rs[i], op, req) in FollowerSteps(l, rs, i, [])
  {
    var r := rs[i];
    if op == r.lastSlowPath + 1 {
      FollowerAdopts(l, rs, i, req);
    } else {
      var out := HandlePrepare(i, r, op, req).1;
      assert HandlePrepare(i, r, op, req) == (r, out);
    }
  }

  lemma FollowerCommit(l: seq<Request>, rs: seq<Replica>, i: nat, op: nat, req: Request)
    requires LEADER < i < |rs| && Follows(l, rs[i]) && MessageOk(l, rs, Commit(op, req))
    ensures HandleCommit(i, rs[i], op, req) in FollowerSteps(l, rs, i, [])
  {
  }

  lemma {:induction false} SlowOKsOk(l: seq<Request>, rs: seq<Replica>, i: nat, lo: nat, hi: nat)
    requires LEADER < i < |rs| && Follows(l, rs[i]) && hi <= rs[i].lastSlowPath
    ensures var out := SlowOKs(i, rs[i].log, rs[i].lastCommitted, lo, hi);
            MessagesOk(l, rs, out) && RepliesFrom(out, rs[i]) && forall m :: m in out ==> m.PrepareOK?
    decreases hi
  {
    if lo <= hi && hi > rs[i].lastCommitted {
      SlowOKsOk(l, rs, i, lo, hi - 1);
    }
  }

  /** State and log after a transfer, before the replies. */
  lemma TransferFollows(l: seq<Request>, r: Replica, begin: nat, entries: seq<Request>, committed: nat)
    requires Follows(l, r) && 1 <= begin <= r.lastCommitted + 1 && PartOf(l, begin - 1, entries)
    requires committed <= begin - 1 + |entries|
    ensures var s := CommitUpTo(TakeOver(r, begin, entries), committed);
            && Follows(l, s) && Evolves(l, r, s) && |s.log| <= Max(|r.log|, s.lastSlowPath)
  {
    TakeOverFollows(l, r, begin, entries);
    TakeOverLength(r, begin, entries);
    var t := TakeOver(r, begin, entries);
    ExecuteFollows(l, t, committed);
  }

  lemma TransferLogFrom(l: seq<Request>, r: Replica, s: Replica)
    requires Follows(l, s) && Evolves(l, r, s) && |s.log| <= Max(|r.log|, s.lastSlowPath)
    ensures LogFrom(r, s, l, [])
  {
  }

  lemma FollowerTransfer(l: seq<Request>, rs: seq<Replica>, i: nat, begin: nat, entries: seq<Request>, committed: nat)
    requires LEADER < i < |rs| && Follows(l, rs[i]) && MessageOk(l, rs, StateTransfer(i, begin, entries, committed))
    ensures HandleStateTransfer(i, rs[i], begin, entries, committed) in FollowerSteps(l, rs, i, [])
  {
    var r := rs[i];
    TransferFollows(l, r, begin, entries, committed);
    var s := CommitUpTo(TakeOver(r, begin, entries), committed);
    var (r', out) := HandleStateTransfer(i, r, begin, entries, committed);
    assert r' == s.(clientTable := r'.clientTable);
    TransferLogFrom(l, r, r');
    SlowOKsOk(l, rs[i := r'], i, r.lastSlowPath, s.lastSlowPath);
  }

  /** A transfer lengthens the log only along the slow path. */
  lemma {:induction false} TakeOverLength(r: Replica, begin: nat, entries: seq<Request>)
    requires InBounds(r) && 1 <= begin <= r.lastCommitted + 1
    ensures var t := TakeOver(r, begin, entries); |t.log| == Max(|r.log|, t.lastSlowPath)
    decreases |entries|
  {
    if entries != [] {
      TakeOverLength(r, begin, entries[..|entries| - 1]);
    }
  }

  // The leader's handlers.

  /** The client table only moves forward. */
  predicate TableGrows(t: map<nat, nat>, u: map<nat, nat>) {
    forall k :: k in t ==> k in u && t[k] <= u[k]
  }

  lemma {:induction false} ExecuteTable(r: Replica, upto: nat)
    requires upto <= |r.log|
    ensures TableGrows(r.clientTable, ExecuteUpTo(r, upto).clientTable)
    decreases upto
  {
    if r.lastCommitted < upto {
      ExecuteTable(r, upto - 1);
    }
  }

  /** What a handler at the leader keeps. */
  predicate GoodLeaderStep(c: Config, rs: seq<Replica>, r': Replica, out: set<Message>, extra: seq<Request>)
    requires LEADER < |rs|
  {
    && rs[LEADER].log <= r'.log
    && Follows(r'.log, r') && Evolves(r'.log, rs[LEADER], r')
    && LeaderOk(c, rs[LEADER := r'])
    && MessagesOk(r'.log, rs[LEADER := r'], out)
    && LogFrom(rs[LEADER], r', [], extra)
    && forall m :: m in out ==> !m.ClientRequest? && !m.PrepareOK?
  }

  lemma LeaderRequest(c: Config, rs: seq<Replica>, req: Request)
    requires LEADER < |rs| && Follows(rs[LEADER].log, rs[LEADER]) && LeaderOk(c, rs)
    ensures var (r', out) := HandleRequest(LEADER, rs[LEADER], req); GoodLeaderStep(c, rs, r', out, [req])
  {
    var r := rs[LEADER];
    var (r', out) := HandleRequest(LEADER, r, req);
    if Accepts(r, req) {
      assert r'.log[..r'.lastCommitted] == r.log[..r.lastCommitted];
    }
  }

  /** A reply that the leader counts comes from a follower that holds the leader's request. */
  lemma ReplyHolds(s: System, op: nat, i: nat, slowpath: bool, req: Request)
    requires LEADER < |s.replicas| && Named(s.sent) && AllKnown(s)
    requires PrepareOK(op, i, slowpath, req) in s.sent
    requires MessageOk(LeaderLog(s), s.replicas, PrepareOK(op, i, slowpath, req))
    requires 1 <= op <= |LeaderLog(s)| && Follows(LeaderLog(s), s.replicas[i])
    requires slowpath || Id(LeaderLog(s)[op - 1]) == Id(req)
    ensures VoteOk(LeaderLog(s), s.replicas, op, i, slowpath)
    ensures LeaderLog(s)[op - 1] == req
  {
  }

  /** Handling a reply from a follower that holds the leader's request. */
  lemma LeaderCounts(c: Config, rs: seq<Replica>, op: nat, i: nat, slowpath: bool)
    requires LEADER < |rs| && Follows(rs[LEADER].log, rs[LEADER]) && LeaderOk(c, rs)
    requires rs[LEADER].lastCommitted < op <= rs[LEADER].lastSlowPath
    requires VoteOk(rs[LEADER].log, rs, op, i, slowpath)
    ensures var (r', out) := CommitIfEnough(c, CountVote(rs[LEADER], op, i, slowpath), op, slowpath);
            GoodLeaderStep(c, rs, r', out, [])
  {
    LeaderVotesOk(c, rs, op, i, slowpath);
    LeaderMayCommit(c, rs, CountVote(rs[LEADER], op, i, slowpath), op, slowpath);
  }

  lemma LeaderMayCommit(c: Config, rs: seq<Replica>, t: Replica, op: nat, slowpath: bool)
    requires LEADER < |rs| && LeaderOk(c, rs[LEADER := t]) && Follows(t.log, t) && t.log == rs[LEADER].log
    requires rs[LEADER].lastCommitted <= t.lastCommitted < op <= t.lastSlowPath
    requires rs[LEADER].lastSlowPath <= t.lastSlowPath
    ensures var (r', out) := CommitIfEnough(c, t, op, slowpath); GoodLeaderStep(c, rs, r', out, [])
  {
    var (r', out) := CommitIfEnough(c, t, op, slowpath);
    if |VotesFor(t, op, slowpath)| >= Required(c, slowpath) {
      LeaderCommitsOk(c, rs, t, op, slowpath);
    }
  }

  lemma LeaderPrepareOK(c: Config, s: System, op: nat, i: nat, slowpath: bool, req: Request)
    requires Inv(c, s) && PrepareOK(op, i, slowpath, req) in s.sent
    ensures var (r', out) := HandlePrepareOK(c, s.replicas[LEADER], op, i, slowpath, req);
            GoodLeaderStep(c, s.replicas, r', out, [])
  {
    var rs, r := s.replicas, s.replicas[LEADER];
    assert Follows(r.log, r) && MessageOk(r.log, rs, PrepareOK(op, i, slowpath, req));
    if r.lastCommitted < op <= r.lastSlowPath && (slowpath || Id(r.log[op - 1]) == Id(req)) {
      assert Follows(r.log, rs[i]);
      ReplyHolds(s, op, i, slowpath, req);
      LeaderCounts(c, rs, op, i, slowpath);
    } else {
      assert HandlePrepareOK(c, r, op, i, slowpath, req).0 == r;
    }
  }

  /** Counting a vote keeps the leader in order. */
  lemma LeaderVotesOk(c: Config, rs: seq<Replica>, op: nat, i: nat, slowpath: bool)
    requires LEADER < |rs| && LeaderOk(c, rs) && InBounds(rs[LEADER])
    requires rs[LEADER].lastCommitted < op && VoteOk(rs[LEADER].log, rs, op, i, slowpath)
    ensures LeaderOk(c, rs[LEADER := CountVote(rs[LEADER], op, i, slowpath)])
  {
    var r, r' := rs[LEADER], CountVote(rs[LEADER], op, i, slowpath);
    var rs' := rs[LEADER := r'];
    VotesElsewhere(r.log, rs, rs', r.slowOKs, true);
    VotesElsewhere(r.log, rs, rs', r.fastOKs, false);
    AddedVoteOk(r.log, rs', if slowpath then r.slowOKs else r.fastOKs, op, i, slowpath);
    assert r.lastCommitted > 0 ==> VotesFor(r', r.lastCommitted, true) == VotesFor(r, r.lastCommitted, true)
                                   && VotesFor(r', r.lastCommitted, false) == VotesFor(r, r.lastCommitted, false);
  }

  /** Votes are of followers, so a change of the leader does not matter. */
  lemma VotesElsewhere(l: seq<Request>, rs: seq<Replica>, rs': seq<Replica>, votes: map<nat, set<nat>>, slowpath: bool)
    requires VotesOk(l, rs, votes, slowpath) && |rs'| == |rs|
    requires forall k :: 0 <= k < |rs| && k != LEADER ==> rs'[k] == rs[k]
    ensures VotesOk(l, rs', votes, slowpath)
  {
    forall op: nat, i: nat | op in votes && i in votes[op]
      ensures VoteOk(l, rs', op, i, slowpath)
    {
      assert VoteOk(l, rs, op, i, slowpath);
    }
  }

  lemma AddedVoteOk(l: seq<Request>, rs: seq<Replica>, votes: map<nat, set<nat>>, op: nat, i: nat, slowpath: bool)
    requires VotesOk(l, rs, votes, slowpath) && VoteOk(l, rs, op, i, slowpath)
    ensures VotesOk(l, rs, AddVote(votes, op, i), slowpath)
  {
    forall p: nat, k: nat | p in AddVote(votes, op, i) && k in AddVote(votes, op, i)[p]
      ensures VoteOk(l, rs, p, k, slowpath)
    {
      if p in votes && k in votes[p] {
        assert VoteOk(l, rs, p, k, slowpath);
      }
    }
  }

  /** Committing an operation that a quorum acknowledged keeps the leader in order. */
  lemma LeaderCommitsOk(c: Config, rs: seq<Replica>, t: Replica, op: nat, slowpath: bool)
    requires LEADER < |rs| && LeaderOk(c, rs[LEADER := t]) && Follows(t.log, t)
    requires t.lastCommitted < op <= t.lastSlowPath && |VotesFor(t, op, slowpath)| >= Required(c, slowpath)
    ensures var u := CommitUpTo(t, op);
            && LeaderOk(c, rs[LEADER := u]) && Follows(t.log, u)
            && u.log == t.log && u.lastCommitted == op && u.lastSlowPath == t.lastSlowPath
  {
    var u := CommitUpTo(t, op);
    ExecuteTable(t, op);
    ExecuteFollows(t.log, t, op);
    var rs' := rs[LEADER := t];
    assert rs'[LEADER := u] == rs[LEADER := u];
  }

  // Every step keeps the invariant.

  lemma FollowerKeeps(c: Config, s: System, i: nat, r': Replica, out: set<Message>, extra: seq<Request>)
    requires Inv(c, s) && LEADER < i < c.n
    requires (r', out) in FollowerSteps(LeaderLog(s), s.replicas, i, extra)
    requires forall req :: req in extra ==> Known(s.sent, req)
    ensures Inv(c, System(s.replicas[i := r'], s.sent + out))
  {
    var l, rs, rs' := LeaderLog(s), s.replicas, s.replicas[i := r'];
    assert AllEvolve(l, rs, rs');
    forall m | m in s.sent
      ensures MessageOk(l, rs', m)
    {
    }
    KnownStep(s, i, r', out, l, extra);
  }

  lemma KnownStep(s: System, i: nat, r': Replica, out: set<Message>, l: seq<Request>, extra: seq<Request>)
    requires i < |s.replicas| && LEADER < |s.replicas| && AllKnown(s)
    requires LogFrom(s.replicas[i], r', l, extra) && RepliesFrom(out, r')
    requires forall req :: req in extra || req in l ==> Known(s.sent, req)
    ensures AllKnown(System(s.replicas[i := r'], s.sent + out))
  {
  }

  lemma LeaderKeeps(c: Config, s: System, r': Replica, out: set<Message>, extra: seq<Request>)
    requires Inv(c, s) && GoodLeaderStep(c, s.replicas, r', out, extra)
    requires forall req :: req in extra ==> Known(s.sent, req)
    ensures Inv(c, System(s.replicas[LEADER := r'], s.sent + out))
  {
    var l, l', rs, rs' := LeaderLog(s), r'.log, s.replicas, s.replicas[LEADER := r'];
    forall m | m in s.sent
      ensures MessageOk(l', rs', m)
    {
    }
    KnownStep(s, LEADER, r', out, [], extra);
  }

  /** Every transfer message that reaches its requester can be processed: no step is held back. */
  lemma AlwaysDeliverable(c: Config, s: System, i: nat, m: Message)
    requires Inv(c, s) && i < c.n && m in s.sent
    ensures Deliverable(s, i, m)
  {
  }

  function Extra(m: Message): seq<Request> {
    if m.ClientRequest? then [m.req] else []
  }

  lemma LeaderDelivers(c: Config, s: System, m: Message)
    requires Inv(c, s) && m in s.sent && Deliverable(s, LEADER, m)
    ensures var (r', out) := Receive(c, LEADER, s.replicas[LEADER], m);
            GoodLeaderStep(c, s.replicas, r', out, Extra(m))
  {
    var rs := s.replicas;
    assert Follows(rs[LEADER].log, rs[LEADER]) && MessageOk(rs[LEADER].log, rs, m);
    match m
    case ClientRequest(req) => LeaderRequest(c, rs, req);
    case PrepareOK(op, j, slowpath, req) => LeaderPrepareOK(c, s, op, j, slowpath, req);
    case RequestStateTransfer(from, op) =>
      TransferMessageOk(rs, from, op);
      LeaderIdle(c, rs, HandleRequestStateTransfer(rs[LEADER], from, op));
    case _ => LeaderIdle(c, rs, {});
  }

  lemma FollowerDelivers(c: Config, s: System, i: nat, m: Message)
    requires Inv(c, s) && LEADER < i < c.n && m in s.sent && Deliverable(s, i, m)
    ensures Receive(c, i, s.replicas[i], m) in FollowerSteps(LeaderLog(s), s.replicas, i, Extra(m))
  {
    var l, rs := LeaderLog(s), s.replicas;
    assert Follows(l, rs[i]) && MessageOk(l, rs, m);
    match m
    case ClientRequest(req) =>
    case Prepare(op, req) => FollowerPrepare(l, rs, i, op, req);
    case Commit(op, req) => FollowerCommit(l, rs, i, op, req);
    case StateTransfer(dst, begin, entries, committed) =>
      if dst == i {
        FollowerTransfer(l, rs, i, begin, entries, committed);
      }
    case _ =>
  }

  lemma DeliverKeeps(c: Config, s: System, i: nat, m: Message)
    requires Inv(c, s) && i < c.n && m in s.sent && Deliverable(s, i, m)
    ensures var (r', out) := Receive(c, i, s.replicas[i], m);
            Inv(c, System(s.replicas[i := r'], s.sent + out))
  {
    var (r', out) := Receive(c, i, s.replicas[i], m);
    if i == LEADER {
      LeaderDelivers(c, s, m);
      LeaderKeeps(c, s, r', out, Extra(m));
    } else {
      FollowerDelivers(c, s, i, m);
      FollowerKeeps(c, s, i, r', out, Extra(m));
    }
  }

  lemma LeaderIdle(c: Config, rs: seq<Replica>, out: set<Message>)
    requires LEADER < |rs| && Follows(rs[LEADER].log, rs[LEADER]) && LeaderOk(c, rs)
    requires MessagesOk(rs[LEADER].log, rs, out) && forall m :: m in out ==> !m.ClientRequest? && !m.PrepareOK?
    ensures GoodLeaderStep(c, rs, rs[LEADER], out, [])
  {
  }

  lemma TransferMessageOk(rs: seq<Replica>, from: nat, op: nat)
    requires LEADER < |rs| && Follows(rs[LEADER].log, rs[LEADER])
    requires MessageOk(rs[LEADER].log, rs, RequestStateTransfer(from, op)) && Follows(rs[LEADER].log, rs[from])
    ensures MessagesOk(rs[LEADER].log, rs, HandleRequestStateTransfer(rs[LEADER], from, op))
  {
  }

  lemma InvNext(c: Config, s: System, s': System, step: Step)
    requires Inv(c, s) && Next(c, s, s', step)
    ensures Inv(c, s')
  {
    match step
    case Invoke(req) =>
    case Deliver(i, m) => DeliverKeeps(c, s, i, m);
    case Resend =>
  }

}

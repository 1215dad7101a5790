/** The invariant of NOPaxos within a view, and that every step keeps it. */
module NopaxosSafety {
  import opened Numbers
  import opened Quorums
  import opened Logs
  import opened Nopaxos
  import opened NopaxosCore

  /** What followers are measured against: the sequencer's order, the leader's log and its commit point. */
  datatype Env = Env(v: View, stamped: seq<Request>, l: seq<Slot>, committed: nat)

  ghost predicate EnvOk(e: Env) {
    && ValidView(e.v) && LogOk(e.v, e.stamped, e.l) && e.committed <= |e.l|
    && forall op: nat :: IsNoOp(e.l, op) ==> GapOk(e.v, e.l, op)
  }

  function EnvOf(v: View, s: System): Env
    requires v.leader < |s.replicas|
  {
    Env(v, s.stamped, s.replicas[v.leader].core.log, s.replicas[v.leader].committed)
  }

  // The invariant.

  /** The gaps of a sync point are exactly the leader's no-ops up to it. */
  predicate SyncGapsOk(e: Env, point: nat, gaps: seq<nat>) {
    && (forall i :: 0 <= i < |gaps| ==> gaps[i] >= 1 && GapOk(e.v, e.l, gaps[i]))
    && Covers(e.l, Members(gaps), point)
  }

  function Members(gaps: seq<nat>): set<nat> {
    set g | g in gaps
  }

  predicate TransferOk(e: Env, k: Core, t: Transfer) {
    t.Transfer? ==> |e.v.base| < t.begin <= |k.log| + 1 && t.begin < t.end && Covers(e.l, k.gaps, t.end - 1)
  }

  predicate SyncOk(e: Env, r: Replica) {
    && (forall p :: p in r.prepares ==> Covers(e.l, r.core.gaps, p))
    && (forall p :: p in r.commits ==> p <= e.committed)
    && TransferOk(e, r.core, r.transfer)
  }

  ghost predicate RepOk(e: Env, i: nat, r: Replica) {
    && CoreOk(e.v, e.stamped, e.l, r.core)
    && Match(e.l, r.core.log, r.committed) && r.committed <= Max(|e.v.base|, e.committed)
    && r.executed <= |r.core.log|
    && (i != e.v.leader ==> r.executed <= Max(|e.v.base|, r.committed) && !r.gapCommit)
    && (r.gapRequested ==> |r.core.log| + 1 >= FirstGap(e.v))
    && (r.active ==> SyncOk(e, r))
  }

  predicate ReplyOk(e: Env, rs: seq<Replica>, op: nat, i: nat, id: RequestId) {
    && i < |rs| && |e.v.base| < op <= |rs[i].core.log|
    && (var n := NumberOf(e.v, op); 1 <= n <= |e.stamped| && Id(e.stamped[n - 1]) == id)
    && (i == e.v.leader ==> op <= |e.l| && !IsNoOp(e.l, op))
  }

  predicate Asks(e: Env, rs: seq<Replica>, i: nat, begin: nat) {
    i < |rs| && |e.v.base| < begin <= |rs[i].core.log| + 1
  }

  predicate MessageOk(e: Env, rs: seq<Replica>, m: Message) {
    match m
    case Reply(op, i, id) => ReplyOk(e, rs, op, i, id)
    case GapRequest(op) => op >= FirstGap(e.v)
    case GapFound(op, content) =>
      op >= FirstGap(e.v) && ContentOk(e.stamped, NumberOf(e.v, op), content) && (content.NoOp? ==> GapOk(e.v, e.l, op))
    case GapMissing(op, i) => op >= FirstGap(e.v) && i < |rs|
    case GapCommit(op) => GapOk(e.v, e.l, op)
    case GapCommitReply(op, i) => true
    case SyncPrepare(point, gaps) => SyncGapsOk(e, point, gaps)
    case SyncPrepareReply(point, i) => i < |rs| && i != e.v.leader && Match(e.l, rs[i].core.log, point)
    case SyncPrepareRequest => true
    case SyncCommit(point) => point <= e.committed
    case StateTransferRequest(i, begin, end) => Asks(e, rs, i, begin)
    case StateTransferReply(i, begin, entries) =>
      Asks(e, rs, i, begin) && PartOf(e.l, begin - 1, entries)
  }

  /** The entries stand in the leader's log from position `b` on. */
  predicate PartOf(l: seq<Slot>, b: nat, entries: seq<Slot>) {
    b + |entries| <= |l| && forall j :: 0 <= j < |entries| ==> entries[j] == l[b + j]
  }

  predicate MessagesOk(e: Env, rs: seq<Replica>, ms: set<Message>) {
    forall m :: m in ms ==> MessageOk(e, rs, m)
  }

  /** The followers counted for a sync point have the leader's log up to it. */
  predicate VotesOk(e: Env, rs: seq<Replica>, votes: map<nat, set<nat>>) {
    forall p: nat, i: nat {:trigger i in votes[p]} :: p in votes && i in votes[p] ==> VoteOk(e, rs, p, i)
  }

  predicate VoteOk(e: Env, rs: seq<Replica>, p: nat, i: nat) {
    i < |rs| && i != e.v.leader && Match(e.l, rs[i].core.log, p)
  }

  predicate CommitVoted(v: View, r: Replica) {
    r.committed <= |v.base| || (r.committed in r.syncOKs && |r.syncOKs[r.committed]| >= QuorumSize(v.c) - 1)
  }

  predicate LeaderOk(e: Env, rs: seq<Replica>, r: Replica) {
    && r.transfer == Idle && SyncGapsOk(e, r.syncPoint, r.syncGaps)
    && VotesOk(e, rs, r.syncOKs) && CommitVoted(e.v, r)
    && (r.gapCommit ==> IsNoOp(e.l, |e.l|))
  }

  ghost predicate Inv(v: View, s: System) {
    && |s.replicas| == v.c.n && v.leader < v.c.n && EnvOk(EnvOf(v, s))
    && (forall i :: 0 <= i < v.c.n ==> RepOk(EnvOf(v, s), i, s.replicas[i]))
    && MessagesOk(EnvOf(v, s), s.replicas, s.sent)
    && LeaderOk(EnvOf(v, s), s.replicas, s.replicas[v.leader])
  }

  // Stability.

  /** Followers and leader only move forward. */
  predicate Later(e: Env, rs: seq<Replica>, e': Env, rs': seq<Replica>) {
    && e'.v == e.v && e.stamped <= e'.stamped && e.l <= e'.l && e.committed <= e'.committed
    && |rs| == |rs'| && forall i :: 0 <= i < |rs| ==> LogEvolves(e'.l, rs[i].core, rs'[i].core)
  }

  lemma MatchStable(l: seq<Slot>, l': seq<Slot>, k: Core, k': Core, p: nat)
    requires l <= l' && LogEvolves(l', k, k') && Match(l, k.log, p)
    ensures Match(l', k'.log, p)
  {
    forall j | 0 <= j < p
      ensures k'.log[j] == l'[j]
    {
      assert KeptAt(l', k, k', j);
    }
  }

  lemma MessageStable(e: Env, rs: seq<Replica>, e': Env, rs': seq<Replica>, m: Message)
    requires Later(e, rs, e', rs') && MessageOk(e, rs, m)
    ensures MessageOk(e', rs', m)
  {
    match m
    case Reply(op, i, id) => assert LogEvolves(e'.l, rs[i].core, rs'[i].core);
    case SyncPrepare(point, gaps) =>
    case SyncPrepareReply(point, i) => MatchStable(e.l, e'.l, rs[i].core, rs'[i].core, point);
    case StateTransferRequest(i, begin, end) => assert LogEvolves(e'.l, rs[i].core, rs'[i].core);
    case StateTransferReply(i, begin, entries) => assert LogEvolves(e'.l, rs[i].core, rs'[i].core);
    case _ =>
  }

  lemma MessagesStable(e: Env, rs: seq<Replica>, e': Env, rs': seq<Replica>, ms: set<Message>)
    requires Later(e, rs, e', rs') && MessagesOk(e, rs, ms)
    ensures MessagesOk(e', rs', ms)
  {
    forall m | m in ms
      ensures MessageOk(e', rs', m)
    {
      MessageStable(e, rs, e', rs', m);
    }
  }

  lemma VotesStable(e: Env, rs: seq<Replica>, e': Env, rs': seq<Replica>, votes: map<nat, set<nat>>)
    requires Later(e, rs, e', rs') && VotesOk(e, rs, votes)
    ensures VotesOk(e', rs', votes)
  {
    forall p: nat, i: nat | p in votes && i in votes[p]
      ensures VoteOk(e', rs', p, i)
    {
      assert VoteOk(e, rs, p, i);
      MatchStable(e.l, e'.l, rs[i].core, rs'[i].core, p);
    }
  }

  lemma LogStable(v: View, stamped: seq<Request>, stamped': seq<Request>, log: seq<Slot>)
    requires LogOk(v, stamped, log) && stamped <= stamped'
    ensures LogOk(v, stamped', log)
  {
    forall j | 0 <= j < |log|
      ensures SlotOk(v, stamped', log, j)
    {
      assert SlotOk(v, stamped, log, j);
    }
  }

  lemma CoreStable(e: Env, e': Env, k: Core)
    requires e'.v == e.v && e.stamped <= e'.stamped && e.l <= e'.l && CoreOk(e.v, e.stamped, e.l, k)
    ensures CoreOk(e'.v, e'.stamped, e'.l, k)
  {
    LogStable(e.v, e.stamped, e'.stamped, k.log);
    forall g | g in k.gaps
      ensures GapOk(e'.v, e'.l, g)
    {
      assert GapOk(e.v, e.l, g);
    }
  }

  lemma RepStable(e: Env, e': Env, i: nat, r: Replica)
    requires e'.v == e.v && e.stamped <= e'.stamped && e.l <= e'.l && e.committed <= e'.committed && RepOk(e, i, r)
    ensures RepOk(e', i, r)
  {
    CoreStable(e, e', r.core);
  }

  // A follower's handlers.

  /** What a handler at follower `i` keeps. */
  ghost predicate GoodStep(e: Env, rs: seq<Replica>, i: nat, r': Replica, out: set<Message>)
    requires i < |rs|
  {
    && RepOk(e, i, r') && Evolves(e.l, rs[i].core, r'.core)
    && rs[i].committed <= r'.committed && r'.active == rs[i].active
    && MessagesOk(e, rs[i := r'], out)
  }

  /** The results, new state and messages, that keep it. */
  ghost function GoodSteps(e: Env, rs: seq<Replica>, i: nat): iset<(Replica, set<Message>)>
    requires i < |rs|
  {
    iset res: (Replica, set<Message>) | GoodStep(e, rs, i, res.0, res.1)
  }

  ghost predicate Ready(e: Env, rs: seq<Replica>, i: nat) {
    EnvOk(e) && i < |rs| && i != e.v.leader && rs[i].active && RepOk(e, i, rs[i])
  }

  /** One good step after another is one good step. */
  lemma Compose(e: Env, rs: seq<Replica>, i: nat, s: Replica, out: set<Message>, t: Replica, more: set<Message>)
    requires i < |rs| && (s, out) in GoodSteps(e, rs, i) && (t, more) in GoodSteps(e, rs[i := s], i)
    ensures (t, out + more) in GoodSteps(e, rs, i)
  {
    var rs1 := rs[i := s];
    assert rs1[i := t] == rs[i := t];
    MessagesStable(e, rs1, e, rs1[i := t], out);
    EvolvesTwice(e.l, rs[i].core, s.core, t.core);
  }

  lemma SyncPrepareGood(e: Env, rs: seq<Replica>, i: nat, p: nat)
    requires Ready(e, rs, i) && Covers(e.l, rs[i].core.gaps, p) && p <= |rs[i].core.log|
    ensures ProcessSyncPrepare(e.v, i, rs[i], p) in GoodSteps(e, rs, i)
  {
    CoversMatch(e.v, e.stamped, e.l, rs[i].core, p);
  }

  lemma MovedGood(e: Env, rs: seq<Replica>, i: nat, k: Core)
    requires Ready(e, rs, i) && CoreOk(e.v, e.stamped, e.l, k) && Evolves(e.l, rs[i].core, k)
    ensures (Moved(rs[i], k), {}) in GoodSteps(e, rs, i)
    ensures rs[i].transfer.Transfer? ==> Covers(e.l, k.gaps, rs[i].transfer.end - 1)
  {
    var r := rs[i];
    MatchStable(e.l, e.l, r.core, k, r.committed);
    forall p | p in r.prepares
      ensures Covers(e.l, k.gaps, p)
    {
    }
  }

  /** Processing a sync point after the log moved. */
  lemma CrossGood(e: Env, rs: seq<Replica>, i: nat, s: Replica, p: nat)
    requires Ready(e, rs, i) && (s, {}) in GoodSteps(e, rs, i) && Covers(e.l, s.core.gaps, p) && p <= |s.core.log|
    ensures ProcessSyncPrepare(e.v, i, s, p) in GoodSteps(e, rs, i)
  {
    SyncPrepareGood(e, rs[i := s], i, p);
    var (u, out) := ProcessSyncPrepare(e.v, i, s, p);
    Compose(e, rs, i, s, {}, u, out);
    assert {} + out == out;
  }

  lemma AdvanceGood(e: Env, rs: seq<Replica>, i: nat, k: Core)
    requires Ready(e, rs, i) && CoreOk(e.v, e.stamped, e.l, k) && Evolves(e.l, rs[i].core, k)
    ensures Advance(e.v, i, rs[i], k) in GoodSteps(e, rs, i)
  {
    MovedGood(e, rs, i, k);
    AdvanceFrom(e, rs, i, rs[i], k);
  }

  /** If moving the log is good, so is processing the sync point it reaches. */
  lemma AdvanceFrom(e: Env, rs: seq<Replica>, i: nat, r: Replica, k: Core)
    requires Ready(e, rs, i) && (Moved(r, k), {}) in GoodSteps(e, rs, i)
    requires r.transfer.Transfer? ==> Covers(e.l, k.gaps, r.transfer.end - 1)
    ensures Advance(e.v, i, r, k) in GoodSteps(e, rs, i)
  {
    if Crosses(r, k) {
      CrossGood(e, rs, i, Moved(r, k), r.transfer.end - 1);
      assert Advance(e.v, i, r, k) == ProcessSyncPrepare(e.v, i, Moved(r, k), r.transfer.end - 1);
    } else {
      assert Advance(e.v, i, r, k) == (Moved(r, k), {});
    }
  }

  lemma ProcessGood(e: Env, rs: seq<Replica>, i: nat, msgnum: nat, content: Content)
    requires Ready(e, rs, i) && msgnum == NumberOf(e.v, |rs[i].core.log| + 1) && ContentOk(e.stamped, msgnum, content)
    requires content.NoOp? ==> GapOk(e.v, e.l, |rs[i].core.log| + 1)
    ensures Process(e.v, i, rs[i], msgnum, content) in GoodSteps(e, rs, i)
    ensures Process(e.v, i, rs[i], msgnum, content).0.core == Place(rs[i].core, msgnum, content)
  {
    var k := Place(rs[i].core, msgnum, content);
    PlaceOk(e.v, e.stamped, e.l, rs[i].core, msgnum, content);
    AdvanceGood(e, rs, i, k);
    var (r', out) := Advance(e.v, i, rs[i], k);
    if content.Op? {
      assert ReplyOk(e, rs[i := r'], |rs[i].core.log| + 1, i, Id(content.req));
    }
  }
}

/** The NOPaxos client: when an operation completes, and what that means. */
module NopaxosClient {
  import opened Quorums
  import opened Logs

  datatype Reply = Reply(view: nat, sess: nat, opnum: nat, reqid: nat, result: string)

  /** The stored replies, by replica. */
  type Replies = map<nat, Reply>

  predicate FromReplicas(c: Config, rs: Replies) {
    forall i :: i in rs ==> i < c.n
  }

  predicate SameSlot(a: Reply, b: Reply) {
    a.view == b.view && a.sess == b.sess && a.opnum == b.opnum
  }

  function Matching(rs: Replies, r: Reply): set<nat> {
    set i | i in rs && SameSlot(rs[i], r)
  }

  /** Replica i replied as the leader of the highest view any reply names. */
  predicate LatestLeader(c: Config, rs: Replies, i: nat)
    requires c.n > 0
  {
    && i in rs && LeaderIndex(c, rs[i].view) == i
    && forall j :: j in rs ==> rs[j].view <= rs[i].view
  }

  /**
   * The condition for completing: a quorum replied, among them the leader of the latest view; no replica
   * before it in index order replied from a later session; and a quorum names the leader's slot.
   */
  predicate Completes(c: Config, rs: Replies, i: nat)
    requires c.n > 0
  {
    && |rs| >= QuorumSize(c) && LatestLeader(c, rs, i)
    && (forall j :: j in rs && j < i ==> rs[j].sess <= rs[i].sess)
    && |Matching(rs, rs[i])| >= QuorumSize(c)
  }

  /** `view` and `sess` are the largest named by the replicas below `n`. */
  ghost predicate LargestBelow(rs: Replies, n: nat, view: nat, sess: nat) {
    && (forall j :: j in rs && j < n ==> rs[j].view <= view && rs[j].sess <= sess)
    && (view == 0 || exists j :: j in rs && j < n && rs[j].view == view)
    && (sess == 0 || exists j :: j in rs && j < n && rs[j].sess == sess)
  }

  /** Replica i leads the latest view, as far as the replicas below `n` tell. */
  predicate Leads(c: Config, rs: Replies, n: nat, i: nat)
    requires c.n > 0
  {
    && i in rs && i < n && LeaderIndex(c, rs[i].view) == i
    && (forall j :: j in rs && j < n ==> rs[j].view <= rs[i].view)
    && (forall j :: j in rs && j < i ==> rs[j].sess <= rs[i].sess)
  }

  /** What the scan has found after the replicas below `n`. */
  ghost predicate Found(c: Config, rs: Replies, n: nat, leader: Option<nat>)
    requires c.n > 0
  {
    match leader
    case Some(i) => Leads(c, rs, n, i)
    case None => forall i :: i in rs ==> !Leads(c, rs, n, i)
  }

  lemma FoundNext(c: Config, rs: Replies, n: nat, view: nat, sess: nat, leader: Option<nat>)
    requires c.n > 0 && LargestBelow(rs, n, view, sess) && n in rs && Found(c, rs, n, leader)
    ensures Found(c, rs, n + 1,
                  if LeaderIndex(c, rs[n].view) == n && rs[n].view >= view && rs[n].sess >= sess then Some(n)
                  else if rs[n].view > view then None else leader)
  {
  }

  class Client {
    const c: Config
    var pending: Option<nat>
    var replies: map<nat, Replies>

    ghost predicate Valid()
      reads this
    {
      ValidConfig(c) && forall q :: q in replies ==> FromReplicas(c, replies[q])
    }

    constructor (c: Config)
      requires ValidConfig(c)
      ensures Valid() && this.c == c && pending == None && replies == map[]
    {
      this.c, pending, replies := c, None, map[];
    }

    /** The stored replies to the pending request, once `m` of replica `from` is added. */
    function Stored(from: nat, m: Reply): Replies
      reads this
    {
      (if m.reqid in replies then replies[m.reqid] else map[])[from := m]
    }

    /** A reply arrives; `done` is the reply handed to the application when the operation completes. */
    method HandleReply(from: nat, m: Reply) returns (done: Option<Reply>)
      requires Valid() && from < c.n
      modifies this
      ensures Valid()
      ensures old(pending) != Some(m.reqid) ==> done == None && pending == old(pending) && replies == old(replies)
      ensures old(pending) == Some(m.reqid) ==>
                var rs := old(Stored(from, m));
                && (done.Some? <==> exists i :: Completes(c, rs, i))
                && (done.Some? ==> pending == None && replies == map[])
                && (done.Some? ==> exists i :: Completes(c, rs, i) && done.value == rs[i])
                && (done == None ==> pending == old(pending) && replies == old(replies)[m.reqid := rs])
    {
      done := None;
      if pending == None {
        return;
      }
      if m.reqid != pending.value {
        return;
      }
      var rs := Stored(from, m);
      replies := replies[m.reqid := rs];
      if |rs| < QuorumSize(c) {
        return;
      }
      var leader := FindLeader(c, rs);
      if leader.Some? {
        var matching := CountMatching(c, rs, rs[leader.value]);
        if matching >= QuorumSize(c) {
          assert Completes(c, rs, leader.value);
          pending, replies := None, map[];
          return Some(rs[leader.value]);
        }
        forall i | Completes(c, rs, i)
          ensures i == leader.value
        {
        }
      } else {
        assert forall i :: Completes(c, rs, i) ==> Leads(c, rs, c.n, i);
      }
    }
  }

  /** The first loop, in index order. */
  method FindLeader(c: Config, rs: Replies) returns (leader: Option<nat>)
    requires ValidConfig(c) && FromReplicas(c, rs)
    ensures Found(c, rs, c.n, leader)
  {
    leader := None;
    var view, sess := 0, 0;
    for n := 0 to c.n
      invariant LargestBelow(rs, n, view, sess) && Found(c, rs, n, leader)
    {
      if n in rs {
        FoundNext(c, rs, n, view, sess, leader);
        var r := rs[n];
        if r.view > view {
          view, leader := r.view, None;
        }
        if r.sess > sess {
          sess := r.sess;
        }
        if LeaderIndex(c, r.view) == n && r.view == view && r.sess == sess {
          leader := Some(n);
        }
      } else {
        SkipFound(c, rs, n, leader);
      }
    }
  }

  lemma SkipFound(c: Config, rs: Replies, n: nat, leader: Option<nat>)
    requires c.n > 0 && n !in rs && Found(c, rs, n, leader)
    ensures Found(c, rs, n + 1, leader)
  {
  }

  /** The second loop. */
  method CountMatching(c: Config, rs: Replies, r: Reply) returns (count: nat)
    requires FromReplicas(c, rs)
    ensures count == |Matching(rs, r)|
  {
    count := 0;
    ghost var seen: set<nat> := {};
    for n := 0 to c.n
      invariant seen == (set i | i in rs && i < n && SameSlot(rs[i], r)) && count == |seen|
    {
      if n in rs && SameSlot(rs[n], r) {
        count := count + 1;
        seen := seen + {n};
      }
    }
    assert seen == Matching(rs, r);
  }

  /**
   * When all replies come from one view and session, completing needs just the leader's reply and a
   * quorum naming its slot.
   */
  lemma CompletesInOneView(c: Config, rs: Replies, view: nat, sess: nat)
    requires ValidConfig(c) && FromReplicas(c, rs) && forall i :: i in rs ==> rs[i].view == view && rs[i].sess == sess
    ensures (exists i :: Completes(c, rs, i)) <==>
              LeaderIndex(c, view) in rs && |Matching(rs, rs[LeaderIndex(c, view)])| >= QuorumSize(c)
  {
    var l := LeaderIndex(c, view);
    if l in rs && |Matching(rs, rs[l])| >= QuorumSize(c) {
      SubsetCount(Matching(rs, rs[l]), rs.Keys);
      assert Completes(c, rs, l);
    }
    if i :| Completes(c, rs, i) {
      assert i == l;
    }
  }
}

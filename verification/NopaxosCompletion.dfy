/** From the client's completion to the replicas' logs. */
module NopaxosCompletion {
  import opened Quorums
  import opened Nopaxos
  import opened NopaxosRuns
  import Client = NopaxosClient

  /** The replicas that have this slot at operation `op`. */
  function Holding(s: System, op: nat, slot: Slot): set<nat> {
    set i: nat | i < |s.replicas| && HasSlot(LogOf(s, i), op, slot)
  }

  predicate HasSlot(log: seq<Slot>, op: nat, slot: Slot) {
    1 <= op <= |log| && log[op - 1] == slot
  }

  /** The replies that name the leader's slot were sent in this view. */
  ghost predicate Genuine(s: System, rs: Client.Replies, i: nat, clientid: nat)
    requires i in rs
  {
    forall x :: x in Client.Matching(rs, rs[i]) ==> Reply(rs[i].opnum, x, (clientid, rs[i].reqid)) in s.sent
  }

  /**
   * When the client completes an operation on replies from this view, a quorum that includes the leader
   * has the request at the replied operation number, from then on; and no replica ever has a no-op
   * or another request there.
   */
  lemma CompletionDurable(v: View, run: seq<System>, steps: seq<Step>, j: nat, k: nat, rs: Client.Replies, i: nat,
                          clientid: nat)
    requires Run(v, run, steps) && j <= k < |run| && Client.FromReplicas(v.c, rs)
    requires Client.Completes(v.c, rs, i) && i == v.leader && Genuine(run[j], rs, i, clientid)
    ensures |run[k].replicas| == v.c.n && 1 <= rs[i].opnum <= |LogOf(run[k], v.leader)|
    ensures var op, slot := rs[i].opnum, LogOf(run[k], v.leader)[rs[i].opnum - 1];
            && slot.content.Op? && slot.content.req.clientid == clientid && slot.content.req.clientreqid == rs[i].reqid
            && |Holding(run[k], op, slot)| >= QuorumSize(v.c) && v.leader in Holding(run[k], op, slot)
            && forall x :: 0 <= x < v.c.n && op <= |LogOf(run[k], x)| ==> LogOf(run[k], x)[op - 1] == slot
  {
    var op, id := rs[i].opnum, (clientid, rs[i].reqid);
    var who := Client.Matching(rs, rs[i]);
    assert i in who;
    RepliesDurable(v, run, steps, j, k, op, id, i, i);
    var slot := LogOf(run[k], v.leader)[op - 1];
    forall x: nat | x < v.c.n
      ensures op <= |LogOf(run[k], x)| ==> LogOf(run[k], x)[op - 1] == slot
    {
      RepliesDurable(v, run, steps, j, k, op, id, i, x);
    }
    forall x | x in who
      ensures x in Holding(run[k], op, slot)
    {
      RepliesDurable(v, run, steps, j, k, op, id, x, x);
    }
    SubsetCount(who, Holding(run[k], op, slot));
  }
}

/**
 * Viewstamped Replication within one view: batched prepares, acknowledgements, commits and state transfer
 * from any replica, over a network that may lose, duplicate and reorder.
 */
module Vr {
  import opened Quorums
  import opened Logs

  /** The view: its leader, the log every replica enters it with, and the batch size. */
  datatype View = View(c: Config, leader: nat, base: seq<Request>, batchSize: nat)

  datatype Message =
    | Prepare(start: nat, op: nat, reqs: seq<Request>)
    | PrepareOK(op: nat, replica: nat)
    | Commit(op: nat)
    | RequestStateTransfer(from: nat, op: nat)
    | StateTransfer(dst: nat, begin: nat, entries: seq<Request>, committed: nat)

  /** A replica. `log[i]` is operation i+1; the last four fields matter at the leader. */
  datatype Replica = Replica(log: seq<Request>, committed: nat, executed: seq<Request>, table: map<nat, nat>,
                             lastBatchEnd: nat, batchComplete: bool, lastPrepare: Option<Message>,
                             oks: map<nat, set<nat>>)

  function Record(t: map<nat, nat>, req: Request): map<nat, nat> {
    if req.clientid in t && t[req.clientid] >= req.clientreqid then t else t[req.clientid := req.clientreqid]
  }

  function RecordAll(t: map<nat, nat>, reqs: seq<Request>): map<nat, nat> {
    if reqs == [] then t else Record(RecordAll(t, reqs[..|reqs| - 1]), reqs[|reqs| - 1])
  }

  predicate Accepts(t: map<nat, nat>, req: Request) {
    req.clientid in t ==> req.clientreqid > t[req.clientid]
  }

  // Handlers.

  function CommitUpTo(r: Replica, upto: nat): Replica
    requires r.committed <= |r.log| && upto <= |r.log|
  {
    if upto <= r.committed then r
    else
      var more := r.log[r.committed..upto];
      r.(committed := upto, executed := r.executed + more, table := RecordAll(r.table, more))
  }

  /** The leader sends what has gathered since the last batch as one prepare. */
  function CloseBatch(r: Replica): (Replica, set<Message>)
    requires r.lastBatchEnd <= |r.log|
  {
    var p := Prepare(r.lastBatchEnd + 1, |r.log|, r.log[r.lastBatchEnd..]);
    (r.(lastBatchEnd := |r.log|, batchComplete := false, lastPrepare := Some(p)), {p})
  }

  /**
   * A client request at the leader. The application decides whether it is replicated and as what; the batch
   * is closed when no batch is out or when enough has gathered.
   */
  function HandleRequest(v: View, r: Replica, req: Request, replicate: bool, res: string): (Replica, set<Message>)
    requires r.lastBatchEnd <= |r.log|
  {
    if !Accepts(r.table, req) then (r, {})
    else
      var s := r.(table := Record(r.table, req));
      if !replicate then (s, {})
      else
        var t := s.(log := s.log + [req.(op := res)]);
        if t.batchComplete || |t.log| - t.lastBatchEnd + 1 > v.batchSize then CloseBatch(t) else (t, {})
  }

  /** A follower adds the operations of the batch that it lacks. */
  function HandlePrepare(me: nat, r: Replica, start: nat, op: nat, reqs: seq<Request>): (Replica, set<Message>)
    requires 1 <= start <= op && |reqs| == op - start + 1
  {
    if op <= |r.log| then (r, {PrepareOK(op, me)})
    else if start > |r.log| + 1 then (r, {RequestStateTransfer(me, r.committed)})
    else
      var more := reqs[|r.log| + 1 - start..];
      (r.(log := r.log + more, table := RecordAll(r.table, more)), {PrepareOK(op, me)})
  }

  /** The reply that completes the quorum is announced, and with it the next batch may go out. */
  function AfterCommit(r: Replica, op: nat): (Replica, set<Message>)
    requires r.lastBatchEnd <= |r.log|
  {
    if r.lastBatchEnd != op then (r, {Commit(r.committed)})
    else
      var s := r.(batchComplete := true);
      if |s.log| > s.lastBatchEnd then
        var (t, out) := CloseBatch(s);
        (t, {Commit(r.committed)} + out)
      else (s, {Commit(r.committed)})
  }

  function HandlePrepareOK(v: View, r: Replica, op: nat, replica: nat): (Replica, set<Message>)
    requires r.committed <= |r.log| && op <= |r.log| && r.lastBatchEnd <= |r.log|
  {
    var s := r.(oks := AddVote(r.oks, op, replica));
    var count := |s.oks[op]|;
    if count < QuorumSize(v.c) - 1 then (s, {})
    else
      var t := CommitUpTo(s, op);
      if count >= QuorumSize(v.c) then (t, {}) else AfterCommit(t, op)
  }

  function HandleCommit(me: nat, r: Replica, op: nat): (Replica, set<Message>)
    requires r.committed <= |r.log|
  {
    if op <= r.committed then (r, {})
    else if op > |r.log| then (r, {RequestStateTransfer(me, r.committed)})
    else (CommitUpTo(r, op), {})
  }

  /** Any replica answers, with what it has beyond the requester's commit point. */
  function HandleRequestStateTransfer(r: Replica, from: nat, op: nat): set<Message> {
    {StateTransfer(from, op + 1, if op <= |r.log| then r.log[op..] else [], r.committed)}
  }

  /** Acknowledgements for the uncommitted operations lo..hi. */
  function OKs(me: nat, committed: nat, lo: nat, hi: nat): set<Message> {
    set i: nat | lo <= i <= hi && i > committed :: PrepareOK(i, me)
  }

  /** Takes over the transferred entries beyond the log's end. */
  function TakeOver(r: Replica, begin: nat, entries: seq<Request>): Replica
    requires 1 <= begin <= |r.log| + 1
  {
    var have := |r.log| + 1 - begin;
    if |entries| <= have then r else r.(log := r.log + entries[have..])
  }

  function FirstNew(lo: nat, committed: nat): (op: nat)
    ensures op > committed && op >= lo
  {
    if lo > committed then lo else committed + 1
  }

  /** Records and acknowledges the operations from `lo` on that are not committed. */
  function Acknowledge(me: nat, s: Replica, lo: nat): (Replica, set<Message>)
    requires lo <= |s.log|
  {
    var first := FirstNew(lo, s.committed);
    (s.(table := RecordAll(s.table, if first <= |s.log| then s.log[first - 1..] else [])),
     OKs(me, s.committed, lo, |s.log|))
  }

  function HandleStateTransfer(me: nat, r: Replica, begin: nat, entries: seq<Request>, committed: nat): (Replica,
                               set<Message>)
    requires 1 <= begin <= r.committed + 1 && r.committed <= |r.log| && committed <= begin - 1 + |entries|
  {
    Acknowledge(me, CommitUpTo(TakeOver(r, begin, entries), committed), |r.log|)
  }

  function ResendPrepare(r: Replica): set<Message> {
    if |r.log| == r.committed || r.lastPrepare == None then {} else {r.lastPrepare.value}
  }

  // The system.

  /** `batches` lists the closed batches, first and last operation, in the order they were closed. */
  datatype System = System(replicas: seq<Replica>, sent: set<Message>, batches: seq<(nat, nat)>)

  predicate InClientOrder(log: seq<Request>, t: map<nat, nat>) {
    && (forall i, j :: 0 <= i < j < |log| && log[i].clientid == log[j].clientid ==>
          log[i].clientreqid < log[j].clientreqid)
    && (forall i :: 0 <= i < |log| ==> log[i].clientid in t && log[i].clientreqid <= t[log[i].clientid])
  }

  predicate Entering(v: View, r: Replica) {
    && r.log == v.base && r.committed <= |v.base| && r.executed == v.base[..r.committed]
    && r.lastBatchEnd == |v.base| && r.batchComplete && r.oks == map[]
    && InClientOrder(v.base, r.table) && r.lastPrepare == None
  }

  ghost predicate Init(v: View, s: System) {
    && ValidConfig(v.c) && v.leader < v.c.n && |s.replicas| == v.c.n && s.sent == {} && s.batches == []
    && forall i :: 0 <= i < v.c.n ==> Entering(v, s.replicas[i])
  }

  datatype Step =
    | Arrive(req: Request, replicate: bool, res: string)
    | Deliver(i: nat, m: Message)
    | CloseTimer
    | Resend
    | NullCommit

  predicate Readable(v: View, i: nat, r: Replica, m: Message) {
    && r.committed <= |r.log| && r.lastBatchEnd <= |r.log|
    && (m.Prepare? ==> 1 <= m.start <= m.op && |m.reqs| == m.op - m.start + 1)
    && (m.PrepareOK? && i == v.leader ==> m.op <= |r.log|)
    && (m.StateTransfer? && m.dst == i ==> 1 <= m.begin <= r.committed + 1 && m.committed <= m.begin - 1 + |m.entries|)
  }

  function Receive(v: View, i: nat, r: Replica, m: Message): (Replica, set<Message>)
    requires Readable(v, i, r, m)
  {
    match m
    case Prepare(start, op, reqs) => if i == v.leader then (r, {}) else HandlePrepare(i, r, start, op, reqs)
    case PrepareOK(op, replica) => if i == v.leader then HandlePrepareOK(v, r, op, replica) else (r, {})
    case Commit(op) => if i == v.leader then (r, {}) else HandleCommit(i, r, op)
    case RequestStateTransfer(from, op) => (r, if from == i then {} else HandleRequestStateTransfer(r, from, op))
    case StateTransfer(dst, begin, entries, committed) =>
      if i == v.leader || dst != i then (r, {}) else HandleStateTransfer(i, r, begin, entries, committed)
  }

  /** A batch is noted when the leader closes it. */
  function Noted(batches: seq<(nat, nat)>, r: Replica, r': Replica): seq<(nat, nat)> {
    if r'.lastBatchEnd > r.lastBatchEnd then batches + [(r.lastBatchEnd + 1, r'.lastBatchEnd)] else batches
  }

  ghost predicate Acts(v: View, s: System, s': System, i: nat, r: Replica, out: set<Message>) {
    && i < |s.replicas|
    && s' == System(s.replicas[i := r], s.sent + out,
                    if i == v.leader then Noted(s.batches, s.replicas[i], r) else s.batches)
  }

  ghost predicate Next(v: View, s: System, s': System, step: Step) {
    && v.leader < |s.replicas| && s.replicas[v.leader].lastBatchEnd <= |s.replicas[v.leader].log|
    && var lead := s.replicas[v.leader];
       match step
       case Arrive(req, replicate, res) =>
         var (r, out) := HandleRequest(v, lead, req, replicate, res);
         Acts(v, s, s', v.leader, r, out)
       case Deliver(i, m) =>
         && i < |s.replicas| && m in s.sent && Readable(v, i, s.replicas[i], m)
         && var (r, out) := Receive(v, i, s.replicas[i], m);
            Acts(v, s, s', i, r, out)
       case CloseTimer =>
         && lead.lastBatchEnd < |lead.log|
         && var (r, out) := CloseBatch(lead);
            Acts(v, s, s', v.leader, r, out)
       case Resend => Acts(v, s, s', v.leader, lead, ResendPrepare(lead))
       case NullCommit => Acts(v, s, s', v.leader, lead, {Commit(lead.committed)})
  }
}

/**
 * Fast Paxos as a protocol: what every handler does to a replica and which messages it sends, over a
 * network that may lose, duplicate and reorder. The view never changes, so replica 0 always leads.
 */
module FastPaxos {
  import opened Quorums
  import opened Logs

  const LEADER: nat := 0

  datatype Message =
    | ClientRequest(req: Request)
    | Prepare(op: nat, req: Request)
    | PrepareOK(op: nat, replica: nat, slowpath: bool, req: Request)
    | Commit(op: nat, req: Request)
    | RequestStateTransfer(from: nat, op: nat)
    | StateTransfer(dst: nat, begin: nat, entries: seq<Request>, committed: nat)

  /**
   * A replica. `log[i]` is operation i+1; `executed` records what has been handed to the application;
   * the quorum sets keep, per operation, the followers heard from.
   */
  datatype Replica = Replica(log: seq<Request>, lastFastPath: nat, lastSlowPath: nat, lastCommitted: nat,
                             clientTable: map<nat, nat>, executed: seq<Request>,
                             fastOKs: map<nat, set<nat>>, slowOKs: map<nat, set<nat>>)

  function Initial(): Replica {
    Replica([], 0, 0, 0, map[], [], map[], map[])
  }

  function UpdateClientTable(t: map<nat, nat>, req: Request): map<nat, nat> {
    if req.clientid in t && t[req.clientid] >= req.clientreqid then t else t[req.clientid := req.clientreqid]
  }

  /** The counters stay within the log. */
  predicate InBounds(r: Replica) {
    r.lastCommitted <= r.lastSlowPath <= r.lastFastPath == |r.log|
  }

  // Handlers.

  /** Executes the operations after lastCommitted up to `upto`, in order. */
  function ExecuteUpTo(r: Replica, upto: nat): (s: Replica)
    requires upto <= |r.log|
    ensures s.log == r.log && s.lastFastPath == r.lastFastPath && s.lastSlowPath == r.lastSlowPath
    ensures s.fastOKs == r.fastOKs && s.slowOKs == r.slowOKs
    ensures s.lastCommitted == if r.lastCommitted < upto then upto else r.lastCommitted
    ensures s.executed == r.executed + if r.lastCommitted < upto then r.log[r.lastCommitted..upto] else []
    decreases upto
  {
    if r.lastCommitted >= upto then r
    else
      var mid := ExecuteUpTo(r, upto - 1);
      var req := r.log[upto - 1];
      mid.(lastCommitted := upto, executed := mid.executed + [req],
           clientTable := UpdateClientTable(mid.clientTable, req))
  }

  function CommitUpTo(r: Replica, upto: nat): Replica
    requires upto <= |r.log|
  {
    var s := ExecuteUpTo(r, upto);
    if s.lastSlowPath < s.lastCommitted then s.(lastSlowPath := s.lastCommitted) else s
  }

  predicate Accepts(r: Replica, req: Request) {
    req.clientid in r.clientTable ==> req.clientreqid > r.clientTable[req.clientid]
  }

  function HandleRequest(me: nat, r: Replica, req: Request): (Replica, set<Message>)
    requires InBounds(r)
  {
    if !Accepts(r, req) then (r, {})
    else
      var t := UpdateClientTable(r.clientTable, req);
      var op := r.lastFastPath + 1;
      if me == LEADER then
        (r.(clientTable := t, log := r.log + [req], lastFastPath := op, lastSlowPath := op), {})
      else
        (r.(clientTable := t, log := r.log + [req], lastFastPath := op), {PrepareOK(op, me, false, req)})
  }

  /** The leader's pending prepare, sent only on a timeout or a conflict. */
  function ResendPrepare(r: Replica): set<Message>
    requires InBounds(r)
  {
    if r.lastSlowPath == r.lastCommitted then {} else {Prepare(|r.log|, r.log[|r.log| - 1])}
  }

  /** A follower adopts the leader's request as its next slow-path operation. */
  function Adopt(r: Replica, req: Request): (s: Replica)
    requires InBounds(r)
    ensures InBounds(s)
  {
    var op := r.lastSlowPath + 1;
    if op > r.lastFastPath then
      r.(lastFastPath := r.lastFastPath + 1, lastSlowPath := op, log := r.log + [req])
    else
      r.(lastSlowPath := op, log := r.log[op - 1 := req])
  }

  function HandlePrepare(me: nat, r: Replica, op: nat, req: Request): (Replica, set<Message>)
    requires InBounds(r)
  {
    if op <= r.lastSlowPath then (r, {PrepareOK(op, me, true, req)})
    else if op > r.lastSlowPath + 1 then (r, {RequestStateTransfer(me, r.lastCommitted)})
    else
      var s := Adopt(r, req);
      (s.(clientTable := UpdateClientTable(s.clientTable, req)), {PrepareOK(op, me, true, req)})
  }

  function VotesFor(r: Replica, op: nat, slowpath: bool): set<nat> {
    var votes := if slowpath then r.slowOKs else r.fastOKs;
    if op in votes then votes[op] else {}
  }

  function CountVote(r: Replica, op: nat, replica: nat, slowpath: bool): Replica {
    if slowpath then r.(slowOKs := AddVote(r.slowOKs, op, replica))
    else r.(fastOKs := AddVote(r.fastOKs, op, replica))
  }

  /** How many followers must reply: the quorum without the leader. */
  function Required(c: Config, slowpath: bool): nat {
    (if slowpath then QuorumSize(c) else FastQuorumSize(c)) - 1
  }

  /** Commits `op` once enough followers replied; only the reply that completes the quorum is announced. */
  function CommitIfEnough(c: Config, r: Replica, op: nat, slowpath: bool): (Replica, set<Message>)
    requires 1 <= op <= |r.log|
  {
    var count := |VotesFor(r, op, slowpath)|;
    if count < Required(c, slowpath) then (r, {})
    else
      var s := CommitUpTo(r, op);
      (s, if count > Required(c, slowpath) then {} else {Commit(s.lastCommitted, s.log[op - 1])})
  }

  function HandlePrepareOK(c: Config, r: Replica, op: nat, replica: nat, slowpath: bool, req: Request): (Replica,
                           set<Message>)
    requires InBounds(r)
  {
    if op <= r.lastCommitted || op > r.lastSlowPath then (r, {})
    else if !slowpath && Id(r.log[op - 1]) != Id(req) then (r, ResendPrepare(r))
    else CommitIfEnough(c, CountVote(r, op, replica, slowpath), op, slowpath)
  }

  function HandleCommit(me: nat, r: Replica, op: nat, req: Request): (Replica, set<Message>)
    requires InBounds(r)
  {
    if op <= r.lastCommitted then (r, {})
    else if op > r.lastFastPath then (r, {RequestStateTransfer(me, r.lastCommitted)})
    else if op > r.lastSlowPath + 1 then (r, {})
    else
      var s := if op > r.lastSlowPath then r.(log := r.log[op - 1 := req]) else r;
      (CommitUpTo(s, op), {})
  }

  function HandleRequestStateTransfer(r: Replica, from: nat, op: nat): set<Message> {
    {StateTransfer(from, op + 1, if op <= |r.log| then r.log[op..] else [], r.lastCommitted)}
  }

  /** Takes over the transferred entries that lie beyond the slow path. */
  function TakeOver(r: Replica, begin: nat, entries: seq<Request>): (s: Replica)
    requires InBounds(r) && 1 <= begin <= r.lastCommitted + 1
    ensures InBounds(s) && s.lastCommitted == r.lastCommitted && s.executed == r.executed
    ensures s.lastSlowPath >= begin - 1 + |entries| && s.lastSlowPath >= r.lastSlowPath
    ensures s.clientTable == r.clientTable && s.fastOKs == r.fastOKs && s.slowOKs == r.slowOKs
    decreases |entries|
  {
    if entries == [] then r
    else
      var n := |entries| - 1;
      var mid := TakeOver(r, begin, entries[..n]);
      if begin + n <= mid.lastSlowPath then mid else Adopt(mid, entries[n])
  }

  /** Acknowledges, on the slow path, the operations lo..hi of the log that are not committed. */
  function SlowOKs(me: nat, log: seq<Request>, committed: nat, lo: nat, hi: nat): set<Message>
    requires hi <= |log|
    decreases hi
  {
    if hi < lo || hi <= committed then {}
    else SlowOKs(me, log, committed, lo, hi - 1) + {PrepareOK(hi, me, true, log[hi - 1])}
  }

  function RecordRange(t: map<nat, nat>, log: seq<Request>, lo: nat, hi: nat): map<nat, nat>
    requires hi <= |log|
    decreases hi
  {
    if hi <= lo then t else UpdateClientTable(RecordRange(t, log, lo, hi - 1), log[hi - 1])
  }

  /** The first operation, from `lo` on, beyond the committed ones. */
  function FirstNew(lo: nat, committed: nat): (op: nat)
    ensures op > committed && op >= lo
  {
    if lo > committed then lo else committed + 1
  }

  /** Records and acknowledges the slow-path operations from `lo` on that are not committed. */
  function Acknowledge(me: nat, s: Replica, lo: nat): (Replica, set<Message>)
    requires s.lastSlowPath <= |s.log|
  {
    var first := FirstNew(lo, s.lastCommitted);
    (s.(clientTable := RecordRange(s.clientTable, s.log, first - 1, s.lastSlowPath)),
     SlowOKs(me, s.log, s.lastCommitted, lo, s.lastSlowPath))
  }

  function HandleStateTransfer(me: nat, r: Replica, begin: nat, entries: seq<Request>, committed: nat): (Replica,
                               set<Message>)
    requires InBounds(r) && 1 <= begin <= r.lastCommitted + 1
    requires committed <= begin - 1 + |entries|
  {
    Acknowledge(me, CommitUpTo(TakeOver(r, begin, entries), committed), r.lastSlowPath)
  }

  // The system.

  datatype System = System(replicas: seq<Replica>, sent: set<Message>)

  ghost predicate Init(c: Config, s: System) {
    && |s.replicas| == c.n
    && (forall i :: 0 <= i < c.n ==> s.replicas[i] == Initial())
    && s.sent == {}
  }

  /** A client never uses one request number for two different operations. */
  predicate NamedByClient(sent: set<Message>, req: Request) {
    forall m :: m in sent && m.ClientRequest? && Id(m.req) == Id(req) ==> m.req == req
  }

  /** What replica `i` does with message `m`. */
  function Receive(c: Config, i: nat, r: Replica, m: Message): (Replica, set<Message>)
    requires InBounds(r)
    requires m.StateTransfer? && i != LEADER && m.dst == i ==>
               1 <= m.begin <= r.lastCommitted + 1 && m.committed <= m.begin - 1 + |m.entries|
  {
    match m
    case ClientRequest(req) => HandleRequest(i, r, req)
    case Prepare(op, req) => if i == LEADER then (r, {}) else HandlePrepare(i, r, op, req)
    case PrepareOK(op, replica, slowpath, req) =>
      if i == LEADER then HandlePrepareOK(c, r, op, replica, slowpath, req) else (r, {})
    case Commit(op, req) => if i == LEADER then (r, {}) else HandleCommit(i, r, op, req)
    case RequestStateTransfer(from, op) => if i == LEADER then (r, HandleRequestStateTransfer(r, from, op)) else (r, {})
    case StateTransfer(dst, begin, entries, committed) =>
      if i != LEADER && dst == i then HandleStateTransfer(i, r, begin, entries, committed) else (r, {})
  }

  datatype Step =
    | Invoke(req: Request)
    | Deliver(i: nat, m: Message)
    | Resend

  /** The transfer messages the step may deliver are as the leader built them. */
  predicate Deliverable(s: System, i: nat, m: Message)
    requires i < |s.replicas|
  {
    && m in s.sent && InBounds(s.replicas[i])
    && (m.StateTransfer? && i != LEADER && m.dst == i ==>
          1 <= m.begin <= s.replicas[i].lastCommitted + 1 && m.committed <= m.begin - 1 + |m.entries|)
  }

  ghost predicate Next(c: Config, s: System, s': System, step: Step) {
    match step
    case Invoke(req) => NamedByClient(s.sent, req) && s' == s.(sent := s.sent + {ClientRequest(req)})
    case Deliver(i, m) =>
      && i < |s.replicas| && Deliverable(s, i, m)
      && var (r, out) := Receive(c, i, s.replicas[i], m);
         s' == System(s.replicas[i := r], s.sent + out)
    case Resend =>
      && LEADER < |s.replicas| && InBounds(s.replicas[LEADER])
      && s' == s.(sent := s.sent + ResendPrepare(s.replicas[LEADER]))
  }
}

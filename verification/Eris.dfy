/**
 * Eris within one epoch: servers that process stamped transactions in order, promise to drop missing ones,
 * and a failure coordinator that decides, stamp by stamp, whether a transaction is found or dropped.
 */
module Eris {
  import opened Quorums
  import opened Logs

  /** The position of a transaction in one shard's order. */
  datatype Stamp = Stamp(shard: nat, msgnum: nat)

  datatype Txn = Txn(id: nat, stamps: seq<Stamp>)

  datatype Fate = Found(txn: Txn) | Dropped

  /** A server's promise not to process a transaction, made in a view of its shard. */
  datatype Promise = Promise(replica: nat, view: nat)

  datatype Coordinator = Coordinator(results: map<Stamp, Fate>, records: map<Stamp, map<nat, set<Promise>>>)

  datatype Outcome = Processed(txn: Txn) | Skipped

  /** A server. `log[i]` is what it did with message i+1 of its shard. */
  datatype Server = Server(shard: nat, replica: nat, view: nat, temp: set<Stamp>, perm: set<Stamp>, un: set<Stamp>,
                           unMsgs: map<Stamp, Txn>, log: seq<Outcome>)

  datatype Message =
    | InfoRequest(stamp: Stamp)
    | Check(stamp: Stamp)
    | TxnReceived(txn: Txn)
    | TempDropped(stamp: Stamp, shard: nat, replica: nat, view: nat)
    | TxnFound(shard: nat, txn: Txn)
    | DropTxn(stamp: Stamp)
    | GapReply(shard: nat, msgnum: nat, entry: Outcome)
    | Drops(shard: nat, temp: seq<Stamp>, perm: seq<Stamp>, un: seq<Txn>)

  function StampsOf(t: Txn): set<Stamp> {
    set s | s in t.stamps
  }

  // The coordinator.

  function ResultFor(fate: Fate, s: Stamp): Message {
    match fate
    case Found(t) => TxnFound(s.shard, t)
    case Dropped => DropTxn(s)
  }

  function HandleInfoRequest(k: Coordinator, s: Stamp): set<Message> {
    {Check(s)} + if s in k.results then {ResultFor(k.results[s], s)} else {}
  }

  predicate SomeDropped(k: Coordinator, t: Txn) {
    exists s :: s in t.stamps && s in k.results && k.results[s] == Dropped
  }

  /** The stamps that are not decided yet, what they become, and the messages that say so. */
  function Open(results: map<Stamp, Fate>, stamps: seq<Stamp>): set<Stamp> {
    set s | s in stamps && s !in results
  }

  function FatesFor(stamps: set<Stamp>, fate: Fate): map<Stamp, Fate> {
    map s | s in stamps :: fate
  }

  function MessagesFor(fate: Fate, stamps: set<Stamp>): set<Message> {
    set s | s in stamps :: ResultFor(fate, s)
  }

  /** A server has the transaction: it is found unless one of its stamps was already dropped. */
  function HandleTxnReceived(k: Coordinator, t: Txn): (Coordinator, set<Message>) {
    var fate := if SomeDropped(k, t) then Dropped else Found(t);
    var undecided := Open(k.results, t.stamps);
    (Coordinator(k.results + FatesFor(undecided, fate), k.records - StampsOf(t)), MessagesFor(fate, undecided))
  }

  function RecordsFor(k: Coordinator, s: Stamp, shard: nat): set<Promise> {
    if s in k.records && shard in k.records[s] then k.records[s][shard] else {}
  }

  /** Promises of a shard are kept for its latest view, one per replica. */
  function Renewed(old_: set<Promise>, p: Promise): set<Promise> {
    if exists q :: q in old_ && q.view > p.view then old_
    else (set q | q in old_ && q.view == p.view && q.replica != p.replica) + {p}
  }

  function AddDropRecord(k: Coordinator, s: Stamp, shard: nat, p: Promise): Coordinator {
    var byShard := if s in k.records then k.records[s] else map[];
    k.(records := k.records[s := byShard[shard := Renewed(RecordsFor(k, s, shard), p)]])
  }

  predicate EnoughPromises(c: Config, ps: set<Promise>)
    requires c.n > 0
  {
    |ps| >= QuorumSize(c) && exists p :: p in ps && p.replica == LeaderIndex(c, p.view)
  }

  /** Every one of the `g` shards has promised. */
  predicate IsDropped(c: Config, g: nat, k: Coordinator, s: Stamp)
    requires c.n > 0
  {
    s in k.records && forall shard :: 0 <= shard < g ==> shard in k.records[s] && EnoughPromises(c, k.records[s][shard])
  }

  function HandleTempDropped(c: Config, g: nat, k: Coordinator, s: Stamp, shard: nat, p: Promise): (Coordinator,
                             set<Message>)
    requires c.n > 0
  {
    if s in k.results then (k, {})
    else
      var k1 := AddDropRecord(k, s, shard, p);
      if IsDropped(c, g, k1, s) then (k1.(results := k1.results[s := Dropped]), {DropTxn(s)}) else (k1, {})
  }

  // The servers.

  function NextStamp(v: Server): Stamp {
    Stamp(v.shard, |v.log| + 1)
  }

  function InstallTempDrop(v: Server, s: Stamp): Server {
    if s in v.perm || s in v.un then v else v.(temp := v.temp + {s})
  }

  /** The assertion at the start of installing a found transaction, and the one for a dropped stamp. */
  predicate UnDropAllowed(v: Server, t: Txn) {
    StampsOf(t) !! v.perm && exists s :: s in t.stamps && s.shard == v.shard
  }

  predicate PermDropAllowed(v: Server, s: Stamp) {
    s !in v.un
  }

  /** The transaction under its stamp in this shard. */
  function OwnMsgs(shard: nat, t: Txn): map<Stamp, Txn> {
    map s | s in t.stamps && s.shard == shard :: t
  }

  function InstallUnDrop(v: Server, t: Txn): Server {
    v.(un := v.un + StampsOf(t), temp := v.temp - StampsOf(t), unMsgs := v.unMsgs + OwnMsgs(v.shard, t))
  }

  /** A dropped transaction that is already in the log becomes a skipped one. */
  function InstallPermDrop(v: Server, s: Stamp): Server {
    v.(perm := v.perm + {s}, temp := v.temp - {s},
       log := if s.shard == v.shard && 1 <= s.msgnum <= |v.log| then v.log[s.msgnum - 1 := Skipped] else v.log)
  }

  /** Appends the next message unless the server promised to drop it. */
  function Put(v: Server, e: Outcome): Server {
    var s := NextStamp(v);
    if s in v.temp then v
    else
      var kept := if s in v.perm then Skipped else e;
      v.(log := v.log + [kept], perm := if kept.Skipped? then v.perm + {s} else v.perm)
  }

  /** What the coordinator has already decided about the next message. */
  function Decided(v: Server): Option<Outcome> {
    var s := NextStamp(v);
    if s in v.temp then None
    else if s in v.perm then Some(Skipped)
    else if s in v.un && s in v.unMsgs then Some(Processed(v.unMsgs[s]))
    else None
  }

  /** The decided stamps of the server's own shard that lie ahead. */
  function Ahead(v: Server): set<Stamp> {
    set s | s in v.perm + v.un && s.shard == v.shard && s.msgnum > |v.log|
  }

  lemma PutConsumes(v: Server)
    requires Decided(v).Some?
    ensures Ahead(Put(v, Decided(v).value)) < Ahead(v)
  {
    assert NextStamp(v) in Ahead(v);
  }

  /** Processes the messages that follow as far as they are decided. */
  function Settle(v: Server): Server
    decreases Ahead(v)
  {
    match Decided(v)
    case None => v
    case Some(e) =>
      PutConsumes(v);
      Settle(Put(v, e))
  }

  function ProcessNext(v: Server, e: Outcome): Server {
    if NextStamp(v) in v.temp then v else Settle(Put(v, e))
  }

  function HandleRequest(v: Server, t: Txn): Server {
    if NextStamp(v) in t.stamps then ProcessNext(v, Processed(t)) else v
  }

  /** The first processed transaction that carries the stamp. */
  function Lookup(log: seq<Outcome>, s: Stamp): (r: Option<Txn>)
    ensures r.Some? ==> Processed(r.value) in log && s in r.value.stamps
    ensures r == None ==> forall t :: Processed(t) in log ==> s !in t.stamps
  {
    if log == [] then None
    else if log[0].Processed? && s in log[0].txn.stamps then Some(log[0].txn)
    else Lookup(log[1..], s)
  }

  /** The assertion on a check: what the server promised to drop is not in its log. */
  predicate CheckAllowed(v: Server, s: Stamp) {
    s in v.temp ==> Lookup(v.log, s) == None
  }

  /** Where the assertion fails the server stops, which here means that it neither answers nor changes. */
  function HandleCheck(v: Server, s: Stamp): (Server, set<Message>) {
    if s in v.perm || s in v.un || !CheckAllowed(v, s) then (v, {})
    else
      match Lookup(v.log, s)
      case Some(t) => (v, {TxnReceived(t)})
      case None => (InstallTempDrop(v, s), {TempDropped(s, v.shard, v.replica, v.view)})
  }

  function HandleTxnFound(v: Server, t: Txn): Server {
    var v1 := InstallUnDrop(v, t);
    if NextStamp(v1) in t.stamps then ProcessNext(v1, Processed(t)) else v1
  }

  function HandleDropTxn(v: Server, s: Stamp): Server {
    var v1 := InstallPermDrop(v, s);
    if NextStamp(v1) == s then ProcessNext(v1, Skipped) else v1
  }

  function HandleGapReply(v: Server, shard: nat, msgnum: nat, e: Outcome): Server {
    if shard == v.shard && msgnum == |v.log| + 1 then ProcessNext(v, e) else v
  }

  // Merging another server's drop sets.

  function MergeTemp(v: Server, ts: seq<Stamp>): Server {
    if ts == [] then v else InstallTempDrop(MergeTemp(v, ts[..|ts| - 1]), ts[|ts| - 1])
  }

  function MergePerm(v: Server, ps: seq<Stamp>): Server {
    if ps == [] then v else InstallPermDrop(MergePerm(v, ps[..|ps| - 1]), ps[|ps| - 1])
  }

  function MergeUn(v: Server, us: seq<Txn>): Server {
    if us == [] then v else InstallUnDrop(MergeUn(v, us[..|us| - 1]), us[|us| - 1])
  }

  /** What another server dropped or found contradicts neither this server nor itself. */
  predicate Compatible(v: Server, ps: seq<Stamp>, us: seq<Txn>) {
    && (forall s :: s in ps ==> PermDropAllowed(v, s))
    && (forall t :: t in us ==> UnDropAllowed(v, t) && forall s :: s in ps ==> s !in t.stamps)
  }

  function MergeDrops(v: Server, ts: seq<Stamp>, ps: seq<Stamp>, us: seq<Txn>): Server {
    MergeUn(MergePerm(MergeTemp(v, ts), ps), us)
  }

  // The system.

  /** The shards' configuration, their number, and the transactions the sequencer stamps in this epoch. */
  datatype Epoch = Epoch(c: Config, shards: nat, issued: set<Txn>)

  /** A stamp names one transaction, and a transaction has one stamp per shard. */
  ghost predicate ValidEpoch(e: Epoch) {
    && ValidConfig(e.c)
    && (forall t, t', s :: t in e.issued && t' in e.issued && s in t.stamps && s in t'.stamps ==> t == t')
    && (forall t, s, s' :: t in e.issued && s in t.stamps && s' in t.stamps && s.shard == s'.shard ==> s == s')
  }

  /** Every stamp of the one is below the other's stamp in the same shard. */
  predicate Before(t: Txn, t': Txn) {
    forall s, s' :: s in t.stamps && s' in t'.stamps && s.shard == s'.shard ==> s.msgnum < s'.msgnum
  }

  /** Transactions that share shards are ordered the same way in all of them. */
  ghost predicate Ordered(issued: set<Txn>) {
    forall t, t', s, s' ::
      t in issued && t' in issued && s in t.stamps && s' in t'.stamps && s.shard == s'.shard && s.msgnum < s'.msgnum
      ==> Before(t, t')
  }

  datatype System = System(coord: Coordinator, servers: seq<Server>, sent: set<Message>)

  ghost predicate Init(e: Epoch, s: System) {
    && ValidEpoch(e) && s.coord == Coordinator(map[], map[]) && s.sent == {}
    && forall i :: 0 <= i < |s.servers| ==>
         s.servers[i] == Server(s.servers[i].shard, s.servers[i].replica, s.servers[i].view, {}, {}, {}, map[], [])
  }

  datatype Step =
    | Arrive(i: nat, txn: Txn)
    | Ask(stamp: Stamp)
    | Decide(m: Message)
    | Deliver(i: nat, m: Message)
    | AnswerGap(i: nat, msgnum: nat)
    | ShareDrops(i: nat, temp: seq<Stamp>, perm: seq<Stamp>, un: seq<Txn>)
    | NewView(i: nat, view: nat)

  /** What the coordinator does with a message addressed to it. */
  function CoordinatorReceives(e: Epoch, k: Coordinator, m: Message): (Coordinator, set<Message>)
    requires e.c.n > 0
  {
    match m
    case InfoRequest(s) => (k, HandleInfoRequest(k, s))
    case TxnReceived(t) => HandleTxnReceived(k, t)
    case TempDropped(s, shard, replica, view) => HandleTempDropped(e.c, e.shards, k, s, shard, Promise(replica, view))
    case _ => (k, {})
  }

  function ServerReceives(v: Server, m: Message): (Server, set<Message>) {
    match m
    case Check(s) => HandleCheck(v, s)
    case TxnFound(shard, t) => (if shard == v.shard then HandleTxnFound(v, t) else v, {})
    case DropTxn(s) => (if s.shard == v.shard then HandleDropTxn(v, s) else v, {})
    case GapReply(shard, msgnum, entry) => (HandleGapReply(v, shard, msgnum, entry), {})
    case Drops(shard, ts, ps, us) => (if shard == v.shard then MergeDrops(v, ts, ps, us) else v, {})
    case _ => (v, {})
  }

  ghost predicate Next(e: Epoch, s: System, s': System, step: Step) {
    match step
    case Arrive(i, t) =>
      i < |s.servers| && t in e.issued && s' == s.(servers := s.servers[i := HandleRequest(s.servers[i], t)])
    case Ask(stamp) => s' == s.(sent := s.sent + {InfoRequest(stamp)})
    case Decide(m) =>
      && m in s.sent && e.c.n > 0
      && var (k, out) := CoordinatorReceives(e, s.coord, m);
         s' == s.(coord := k, sent := s.sent + out)
    case Deliver(i, m) =>
      && i < |s.servers| && m in s.sent
      && var (v, out) := ServerReceives(s.servers[i], m);
         s' == s.(servers := s.servers[i := v], sent := s.sent + out)
    case AnswerGap(i, msgnum) =>
      && i < |s.servers| && 1 <= msgnum <= |s.servers[i].log|
      && s' == s.(sent := s.sent + {GapReply(s.servers[i].shard, msgnum, s.servers[i].log[msgnum - 1])})
    case ShareDrops(i, ts, ps, us) =>
      && i < |s.servers|
      && var v := s.servers[i];
         && (forall x :: x in ts ==> x in v.temp) && (forall x :: x in ps ==> x in v.perm)
         && (forall t :: t in us ==> t in v.unMsgs.Values)
         && s' == s.(sent := s.sent + {Drops(v.shard, ts, ps, us)})
    case NewView(i, view) =>
      i < |s.servers| && view > s.servers[i].view && s' == s.(servers := s.servers[i := s.servers[i].(view := view)])
  }
}

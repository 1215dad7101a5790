/**
 * NOPaxos within one session and view: sequenced requests, gap agreement, synchronization and state
 * transfer, as handlers over replicas and a network that may lose, duplicate and reorder.
 */
module Nopaxos {
  import opened Numbers
  import opened Quorums
  import opened Logs

  datatype Content = Op(req: Request) | NoOp

  /** A log slot and the message number the sequencer gave it. */
  datatype Slot = Slot(msgnum: nat, content: Content)

  /**
   * The view: its leader, the log every replica enters it with, the message number expected next, and
   * the number of the session's first message.
   */
  datatype View = View(c: Config, leader: nat, base: seq<Slot>, next: nat, start: nat)

  /** The part of a replica that processing an operation changes. `log[i]` is operation i+1. */
  datatype Core = Core(log: seq<Slot>, gaps: set<nat>, next: nat)

  datatype Transfer = Idle | Transfer(begin: nat, end: nat, requested: bool)

  datatype Replica = Replica(core: Core, committed: nat, executed: nat, active: bool,
                             gapCommit: bool, gapRequested: bool, missing: map<nat, set<nat>>, gapOKs: set<nat>,
                             syncPoint: nat, syncGaps: seq<nat>, syncOKs: map<nat, set<nat>>,
                             prepares: set<nat>, commits: set<nat>, transfer: Transfer)

  datatype Message =
    | Reply(op: nat, replica: nat, id: RequestId)
    | GapRequest(op: nat)
    | GapFound(op: nat, content: Content)
    | GapMissing(op: nat, replica: nat)
    | GapCommit(op: nat)
    | GapCommitReply(op: nat, replica: nat)
    | SyncPrepare(point: nat, gaps: seq<nat>)
    | SyncPrepareReply(point: nat, replica: nat)
    | SyncPrepareRequest
    | SyncCommit(point: nat)
    | StateTransferRequest(from: nat, begin: nat, end: nat)
    | StateTransferReply(dst: nat, begin: nat, entries: seq<Slot>)

  const MAX_SYNC_TRANSFER_OPS: nat := 10

  // Processing operations.

  /** The committed gaps beyond the end of the log. */
  function Above(k: Core): set<nat> {
    set g | g in k.gaps && g > |k.log|
  }

  /** Appends the next operation; one already decided as a gap becomes a no-op. */
  function Put(k: Core, msgnum: nat, content: Content): Core {
    var op := |k.log| + 1;
    var kept := if op in k.gaps then NoOp else content;
    Core(k.log + [Slot(msgnum, kept)], if kept.NoOp? then k.gaps + {op} else k.gaps, msgnum + 1)
  }

  lemma PutConsumes(k: Core)
    requires |k.log| + 1 in k.gaps
    ensures Above(Put(k, k.next, NoOp)) < Above(k)
  {
    assert |k.log| + 1 in Above(k);
  }

  /** Processes the committed gaps that come next, in log order. */
  function Settle(k: Core): (s: Core)
    decreases Above(k)
  {
    if |k.log| + 1 in k.gaps then
      PutConsumes(k);
      Settle(Put(k, k.next, NoOp))
    else k
  }

  lemma {:induction false} SettleGrows(k: Core)
    ensures |Settle(k).log| >= |k.log| && Settle(k).gaps == k.gaps
    ensures |k.log| + 1 in k.gaps ==> |Settle(k).log| > |k.log|
    decreases Above(k)
  {
    if |k.log| + 1 in k.gaps {
      PutConsumes(k);
      SettleGrows(Put(k, k.next, NoOp));
      assert Put(k, k.next, NoOp).gaps == k.gaps;
    }
  }

  function Place(k: Core, msgnum: nat, content: Content): Core {
    Settle(Put(k, msgnum, content))
  }

  /** Overwrites an operation of the log by a no-op. */
  function MarkNoop(k: Core, op: nat): Core
    requires 1 <= op <= |k.log|
  {
    k.(log := k.log[op - 1 := k.log[op - 1].(content := NoOp)])
  }

  /** The gap would overwrite a received operation. */
  predicate Overwrites(k: Core, gap: nat) {
    gap !in k.gaps && 1 <= gap <= |k.log| && k.log[gap - 1].content != NoOp
  }

  function InstallGap(k: Core, gap: nat): Core
    requires gap >= 1
  {
    if gap in k.gaps then k
    else
      var k1 := k.(gaps := k.gaps + {gap});
      var k2 := if |k.log| + 1 == gap then Place(k1, k1.next, NoOp) else k1;
      if gap <= |k2.log| then MarkNoop(k2, gap) else k2
  }

  function InstallGaps(k: Core, gaps: seq<nat>): Core
    requires forall i :: 0 <= i < |gaps| ==> gaps[i] >= 1
  {
    if gaps == [] then k else InstallGap(InstallGaps(k, gaps[..|gaps| - 1]), gaps[|gaps| - 1])
  }

  /** The gaps up to n in increasing order, as an ordered set is written into a message. */
  function Listed(gaps: set<nat>, n: nat): (s: seq<nat>)
    ensures forall g :: g in s <==> 1 <= g <= n && g in gaps
    ensures forall i :: 0 <= i < |s| ==> s[i] >= 1
    ensures forall i, j :: 0 <= i < j < |s| ==> s[i] < s[j]
  {
    if n == 0 then []
    else
      var s := Listed(gaps, n - 1);
      if n in gaps then
        assert forall g :: g in s + [n] <==> g in s || g == n;
        assert forall i :: 0 <= i < |s| ==> s[i] in s;
        s + [n]
      else s
  }

  /** Commits up to `op` and executes what is committed; the leader announces its commit point. */
  function CommitUpTo(v: View, me: nat, r: Replica, op: nat): (Replica, set<Message>) {
    if op <= r.committed then (r, {})
    else (r.(committed := op, executed := Max(r.executed, op)), if me == v.leader then {SyncCommit(op)} else {})
  }

  /** The log is complete up to the sync point: commit if the leader did, acknowledge otherwise. */
  function ProcessSyncPrepare(v: View, me: nat, r: Replica, point: nat): (Replica, set<Message>) {
    if point in r.commits then
      var (s, out) := CommitUpTo(v, me, r, point);
      (s.(prepares := s.prepares - {point}, commits := s.commits - {point}), out)
    else (r, {SyncPrepareReply(point, me)})
  }

  predicate Crosses(r: Replica, k: Core) {
    r.transfer.Transfer? && |r.core.log| < r.transfer.end <= |k.log|
  }

  /** The log has moved to `k`: when it grew, a pending gap request and a completed transfer are cancelled. */
  function Moved(r: Replica, k: Core): Replica {
    var grown := |k.log| > |r.core.log|;
    r.(core := k,
       gapRequested := r.gapRequested && !grown,
       missing := if grown && r.gapRequested then map[] else r.missing,
       transfer := if Crosses(r, k) then r.transfer.(requested := false) else r.transfer)
  }

  /** When the operation numbered by the transfer's end was appended, the sync point before it is processed. */
  function Advance(v: View, me: nat, r: Replica, k: Core): (Replica, set<Message>) {
    if Crosses(r, k) then ProcessSyncPrepare(v, me, Moved(r, k), r.transfer.end - 1) else (Moved(r, k), {})
  }

  lemma AdvanceCore(v: View, me: nat, r: Replica, k: Core)
    ensures Advance(v, me, r, k).0.core == k
  {
  }

  /** Processes one operation: the leader executes what it received, everyone answers the client. */
  function Process(v: View, me: nat, r: Replica, msgnum: nat, content: Content): (Replica, set<Message>) {
    var op := |r.core.log| + 1;
    var (s, out) := Advance(v, me, r, Place(r.core, msgnum, content));
    if op in r.core.gaps || content.NoOp? then (s, out)
    else if me == v.leader then
      (s.(executed := Max(s.executed, op)), out + {Reply(op, me, Id(content.req))})
    else (s, out + {Reply(op, me, Id(content.req))})
  }

  // Handlers.

  /** A sequenced client request arrives. */
  function HandleRequest(v: View, me: nat, r: Replica, msgnum: nat, req: Request): (Replica, set<Message>) {
    if r.gapCommit || msgnum < r.core.next then (r, {})
    else if msgnum > r.core.next && r.core.next != 1 then
      if r.gapRequested then (r, {}) else (r.(gapRequested := true), {GapRequest(|r.core.log| + 1)})
    else Process(v, me, r, msgnum, Op(req))
  }

  function HandleGapRequest(me: nat, r: Replica, op: nat): set<Message> {
    if 1 <= op <= |r.core.log| then {GapFound(op, r.core.log[op - 1].content)}
    else if r.gapRequested && |r.core.log| + 1 == op then {GapMissing(op, me)}
    else {}
  }

  /** The leader gives the next operation up: it logs a no-op and asks the others to do the same. */
  function StartGapAgreement(v: View, r: Replica): (Replica, set<Message>) {
    var s := r.(missing := map[], gapRequested := false, gapCommit := true, gapOKs := {});
    var (t, out) := Process(v, v.leader, s, s.core.next, NoOp);
    (t, out + {GapCommit(|t.core.log|)})
  }

  function HandleGapFound(v: View, me: nat, r: Replica, op: nat, content: Content): (Replica, set<Message>) {
    if op != |r.core.log| + 1 || r.gapCommit then (r, {})
    else Process(v, me, r, r.core.next, content)
  }

  function HandleGapMissing(v: View, me: nat, r: Replica, op: nat, replica: nat): (Replica, set<Message>) {
    if op != |r.core.log| + 1 || r.gapCommit || me != v.leader then (r, {})
    else
      var s := r.(missing := AddVote(r.missing, op, replica));
      if |s.missing[op]| >= v.c.n - 1 then StartGapAgreement(v, s) else (s, {})
  }

  function HandleGapCommit(v: View, me: nat, r: Replica, op: nat): (Replica, set<Message>)
    requires op >= 1
  {
    if |r.core.log| + 1 < op then (r.(core := r.core.(gaps := r.core.gaps + {op})), {})
    else if op <= |r.core.log| then
      (r.(core := MarkNoop(r.core.(gaps := r.core.gaps + {op}), op)), {GapCommitReply(op, me)})
    else
      var (s, out) := Process(v, me, r, r.core.next, NoOp);
      (s, out + {GapCommitReply(op, me)})
  }

  function HandleGapCommitReply(v: View, r: Replica, op: nat, replica: nat): Replica {
    if !r.gapCommit || op != |r.core.log| then r
    else
      var oks := r.gapOKs + {replica};
      if |oks| >= QuorumSize(v.c) - 1 then r.(gapCommit := false, gapOKs := {}) else r.(gapOKs := oks)
  }

  function SendSyncPrepare(r: Replica): (Replica, set<Message>) {
    var s := r.(syncPoint := |r.core.log|, syncGaps := Listed(r.core.gaps, |r.core.log|));
    (s, {SyncPrepare(s.syncPoint, s.syncGaps)})
  }

  function HandleSyncPrepare(v: View, me: nat, r: Replica, point: nat, gaps: seq<nat>): (Replica, set<Message>)
    requires forall i :: 0 <= i < |gaps| ==> gaps[i] >= 1
  {
    if r.committed >= point then (r, {})
    else
      var (s, out) := Advance(v, me, r.(prepares := r.prepares + {point}), InstallGaps(r.core, gaps));
      var (t, more) := AfterGaps(v, me, s, point);
      (t, out + more)
  }

  /** The gaps are in place; ask for what is missing up to the sync point, unless it is too much. */
  function AfterGaps(v: View, me: nat, r: Replica, point: nat): (Replica, set<Message>) {
    var last := |r.core.log|;
    if last >= point then ProcessSyncPrepare(v, me, r, point)
    else
      var near := point - last <= MAX_SYNC_TRANSFER_OPS;
      (r.(transfer := Transfer(last + 1, point + 1, near || (r.transfer.Transfer? && r.transfer.requested))),
       if near then {StateTransferRequest(me, last + 1, point + 1)} else {})
  }

  function HandleSyncPrepareReply(v: View, r: Replica, point: nat, replica: nat): (Replica, set<Message>) {
    if r.committed >= point || point != r.syncPoint then (r, {})
    else
      var s := r.(syncOKs := AddVote(r.syncOKs, point, replica));
      if |s.syncOKs[point]| >= QuorumSize(v.c) - 1 then CommitUpTo(v, v.leader, s, point) else (s, {})
  }

  function HandleSyncCommit(v: View, me: nat, r: Replica, point: nat): (Replica, set<Message>) {
    if r.committed >= point then (r, {})
    else
      var s := r.(commits := r.commits + {point});
      if point !in s.prepares then (s, {SyncPrepareRequest})
      else if |s.core.log| < point then (s, {})
      else
        var (t, out) := CommitUpTo(v, me, s, point);
        (t.(prepares := t.prepares - {point}, commits := t.commits - {point}), out)
  }

  function HandleSyncPrepareRequest(r: Replica): set<Message> {
    {SyncPrepare(r.syncPoint, r.syncGaps)} + if r.committed >= r.syncPoint then {SyncCommit(r.syncPoint)} else {}
  }

  function HandleStateTransferRequest(r: Replica, from: nat, begin: nat, end: nat): set<Message> {
    if !(1 <= begin < end) || begin > |r.core.log| || end > |r.core.log| + 1 then {}
    else {StateTransferReply(from, begin, r.core.log[begin - 1..end - 1])}
  }

  /** What installing entries has come to: the replica, what it sent, and whether it is still running. */
  datatype Installed = Installed(replica: Replica, out: set<Message>, ok: bool)

  /**
   * Installs transferred entries, the first of which is operation `op`. Entry by entry the log must end
   * just before it; otherwise the replica stops, with what it has processed and sent by then.
   */
  function Install(v: View, me: nat, r: Replica, op: nat, entries: seq<Slot>): Installed
    decreases |entries|
  {
    if entries == [] then Installed(r, {}, true)
    else if op != |r.core.log| + 1 then Installed(r, {}, false)
    else
      var (s, out) := Process(v, me, r, entries[0].msgnum, entries[0].content);
      var rest := Install(v, me, s, op + 1, entries[1..]);
      rest.(out := out + rest.out)
  }

  function HandleStateTransferReply(v: View, me: nat, r: Replica, begin: nat, entries: seq<Slot>): Installed
    requires 1 <= begin <= |r.core.log| + 1
  {
    var skip := |r.core.log| + 1 - begin;
    if |entries| <= skip then Installed(r, {}, true) else Install(v, me, r, |r.core.log| + 1, entries[skip..])
  }

  /** Leaving the view for a later one: gaps beyond the log are forgotten. */
  function Leave(r: Replica): Replica {
    r.(active := false, core := r.core.(gaps := set g | g in r.core.gaps && g <= |r.core.log|))
  }

  // The system.

  /** `stamped[i]` is the request the sequencer numbered i+1 in this session. */
  datatype System = System(replicas: seq<Replica>, stamped: seq<Request>, sent: set<Message>)

  function NoopOps(log: seq<Slot>): set<nat> {
    set op: nat | 1 <= op <= |log| && IsNoOp(log, op)
  }

  predicate IsNoOp(log: seq<Slot>, op: nat) {
    1 <= op <= |log| && log[op - 1].content == NoOp
  }

  predicate Entering(v: View, i: nat, r: Replica) {
    && r.core == Core(v.base, NoopOps(v.base), v.next)
    && r.committed <= |v.base| && r.executed <= |v.base|
    && r.active && !r.gapCommit && !r.gapRequested && r.missing == map[] && r.gapOKs == {}
    && r.syncPoint == (if i == v.leader then |v.base| else r.syncPoint)
    && r.syncGaps == (if i == v.leader then Listed(NoopOps(v.base), |v.base|) else r.syncGaps)
    && r.syncOKs == map[] && r.commits == {} && r.transfer == Idle
    && r.prepares == (if i == v.leader then {} else {|v.base|})
  }

  predicate ValidView(v: View) {
    ValidConfig(v.c) && v.leader < v.c.n && v.next >= 1 && v.start >= 1
  }

  ghost predicate Init(v: View, s: System) {
    && ValidView(v) && |s.replicas| == v.c.n && s.sent == {}
    && forall i :: 0 <= i < v.c.n ==> Entering(v, i, s.replicas[i])
  }

  datatype Step =
    | Stamp(req: Request)
    | Arrive(i: nat, msgnum: nat)
    | Deliver(i: nat, m: Message)
    | GapTimer(i: nat)
    | GapCommitTimer
    | SyncTimer
    | TransferTimer(i: nat)
    | LeaveView(i: nat)

  /**
   * What replica `i` does with message `m`; when an assertion stops it, what it did until then. That an operation is
   * missing is told to whoever asked for it, so never to oneself.
   */
  function Receive(v: View, i: nat, r: Replica, m: Message): (Replica, set<Message>)
    requires m.GapCommit? ==> m.op >= 1
    requires m.SyncPrepare? ==> forall k :: 0 <= k < |m.gaps| ==> m.gaps[k] >= 1
    requires m.StateTransferReply? && m.dst == i ==> 1 <= m.begin <= |r.core.log| + 1
  {
    match m
    case Reply(_, _, _) => (r, {})
    case GapRequest(op) => (r, HandleGapRequest(i, r, op))
    case GapFound(op, content) => HandleGapFound(v, i, r, op, content)
    case GapMissing(op, replica) => if replica == i then (r, {}) else HandleGapMissing(v, i, r, op, replica)
    case GapCommit(op) => if i == v.leader then (r, {}) else HandleGapCommit(v, i, r, op)
    case GapCommitReply(op, replica) => (if i == v.leader then HandleGapCommitReply(v, r, op, replica) else r, {})
    case SyncPrepare(point, gaps) => if i == v.leader then (r, {}) else HandleSyncPrepare(v, i, r, point, gaps)
    case SyncPrepareReply(point, replica) =>
      if i == v.leader then HandleSyncPrepareReply(v, r, point, replica) else (r, {})
    case SyncPrepareRequest => (r, if i == v.leader then HandleSyncPrepareRequest(r) else {})
    case SyncCommit(point) => if i == v.leader then (r, {}) else HandleSyncCommit(v, i, r, point)
    case StateTransferRequest(from, begin, end) =>
      (r, if i == v.leader then HandleStateTransferRequest(r, from, begin, end) else {})
    case StateTransferReply(dst, begin, entries) =>
      if i == v.leader || dst != i then (r, {})
      else
        var res := HandleStateTransferReply(v, i, r, begin, entries);
        (res.replica, res.out)
  }

  predicate Readable(i: nat, r: Replica, m: Message) {
    && (m.GapCommit? ==> m.op >= 1)
    && (m.SyncPrepare? ==> forall k :: 0 <= k < |m.gaps| ==> m.gaps[k] >= 1)
    && (m.StateTransferReply? && m.dst == i ==> 1 <= m.begin <= |r.core.log| + 1)
  }

  /** A timer of replica `i` fires. */
  function GapTimeout(v: View, i: nat, r: Replica): (Replica, set<Message>) {
    if !r.gapRequested then (r, {})
    else if i == v.leader then StartGapAgreement(v, r)
    else (r, {GapRequest(|r.core.log| + 1)})
  }

  function TransferTimeout(i: nat, r: Replica): set<Message> {
    if r.transfer.Transfer? && r.transfer.requested then
      {StateTransferRequest(i, r.transfer.begin, r.transfer.end)} else {}
  }

  /** Replica `i` is still in the view and becomes `r`, sending `out`. */
  ghost predicate Acts(s: System, s': System, i: nat, r: Replica, out: set<Message>) {
    i < |s.replicas| && s.replicas[i].active && s' == s.(replicas := s.replicas[i := r], sent := s.sent + out)
  }

  /**
   * The steps. A replica that has processed nothing in a new session takes any message as its first; the
   * model has every replica start the session at the same number.
   */
  ghost predicate Next(v: View, s: System, s': System, step: Step) {
    match step
    case Stamp(req) => s' == s.(stamped := s.stamped + [req])
    case Arrive(i, msgnum) =>
      && i < |s.replicas| && 1 <= msgnum <= |s.stamped|
      && (s.replicas[i].core.next == 1 ==> msgnum == v.start)
      && var (r, out) := HandleRequest(v, i, s.replicas[i], msgnum, s.stamped[msgnum - 1]);
         Acts(s, s', i, r, out)
    case Deliver(i, m) =>
      && i < |s.replicas| && m in s.sent && Readable(i, s.replicas[i], m)
      && var (r, out) := Receive(v, i, s.replicas[i], m);
         Acts(s, s', i, r, out)
    case GapTimer(i) =>
      && i < |s.replicas|
      && var (r, out) := GapTimeout(v, i, s.replicas[i]);
         Acts(s, s', i, r, out)
    case GapCommitTimer =>
      && v.leader < |s.replicas|
      && var r := s.replicas[v.leader];
         Acts(s, s', v.leader, r, if r.gapCommit then {GapCommit(|r.core.log|)} else {})
    case SyncTimer =>
      && v.leader < |s.replicas|
      && var (r, out) := SendSyncPrepare(s.replicas[v.leader]);
         Acts(s, s', v.leader, r, out)
    case TransferTimer(i) =>
      && i < |s.replicas|
      && Acts(s, s', i, s.replicas[i], TransferTimeout(i, s.replicas[i]))
    case LeaveView(i) =>
      && i < |s.replicas|
      && Acts(s, s', i, Leave(s.replicas[i]), {})
  }
}

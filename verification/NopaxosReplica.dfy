/**
 * The NOPaxos replica object. Its handlers update the fields in the order of the code; each leaves the
 * state and sends the messages that the protocol's handler prescribes.
 */
module NopaxosReplica {
  import opened Numbers
  import opened Quorums
  import opened Logs
  import opened Nopaxos

  /** One operation appended, without the gaps that may follow it. */
  function Single(v: View, me: nat, r: Replica, msgnum: nat, content: Content): (Replica, set<Message>) {
    var op := |r.core.log| + 1;
    var (s, out) := Advance(v, me, r, Put(r.core, msgnum, content));
    if op in r.core.gaps || content.NoOp? then (s, out)
    else if me == v.leader then
      (s.(executed := Max(s.executed, op)), out + {Reply(op, me, Id(content.req))})
    else (s, out + {Reply(op, me, Id(content.req))})
  }

  /** Without a gap that follows, one operation is all. */
  lemma ProcessAlone(v: View, me: nat, r: Replica, msgnum: nat, content: Content)
    requires |r.core.log| + 2 !in Put(r.core, msgnum, content).gaps
    ensures Process(v, me, r, msgnum, content) == Single(v, me, r, msgnum, content)
  {
  }

  /** Moving on after a sync point was processed is the same as processing it at the end. */
  lemma AdvanceTwice(v: View, me: nat, r: Replica, k: Core, k': Core)
    requires |r.core.log| <= |k.log| <= |k'.log|
    ensures var (s, out) := Advance(v, me, r, k);
            var (t, more) := Advance(v, me, s, k');
            Advance(v, me, r, k') == (t, out + more)
  {
    var (s, out) := Advance(v, me, r, k);
    var (t, more) := Advance(v, me, s, k');
    if Crosses(r, k) {
      assert more == {} && t == Moved(s, k');
      MovedAfter(v, me, r, k, k');
      assert out + {} == out;
    } else {
      assert Moved(Moved(r, k), k') == Moved(r, k');
      assert {} + more == more;
    }
  }

  lemma MovedAfter(v: View, me: nat, r: Replica, k: Core, k': Core)
    requires Crosses(r, k) && |k.log| <= |k'.log|
    ensures var (s, out) := ProcessSyncPrepare(v, me, Moved(r, k), r.transfer.end - 1);
            ProcessSyncPrepare(v, me, Moved(r, k'), r.transfer.end - 1) == (Moved(s, k'), out)
  {
  }

  /** A gap that follows is one more operation. */
  lemma ProcessSplits(v: View, me: nat, r: Replica, msgnum: nat, content: Content)
    requires |r.core.log| + 2 in Put(r.core, msgnum, content).gaps
    ensures var (s, out) := Single(v, me, r, msgnum, content);
            var (t, more) := Process(v, me, s, msgnum + 1, NoOp);
            Process(v, me, r, msgnum, content) == (t, out + more)
  {
    var k := Put(r.core, msgnum, content);
    var k' := Place(r.core, msgnum, content);
    var (s, out) := Advance(v, me, r, k);
    var (t, more) := Advance(v, me, s, k');
    AdvanceTwice(v, me, r, k, k') by { SettleGrows(k); }
    assert s.core == k && k' == Place(k, k.next, NoOp);
    ExecutedApart(v, me, s, k', Max(s.executed, |r.core.log| + 1));
    if content.Op? && |r.core.log| + 1 !in r.core.gaps {
      var reply := Reply(|r.core.log| + 1, me, Id(content.req));
      assert (out + more) + {reply} == (out + {reply}) + more;
    }
  }

  /** Executing and committing commute. */
  lemma ExecutedApart(v: View, me: nat, s: Replica, k: Core, op: nat)
    requires op == Max(s.executed, op)
    ensures var (t, out) := Advance(v, me, s, k);
            Advance(v, me, s.(executed := op), k) == (t.(executed := Max(t.executed, op)), out)
  {
  }

  lemma AdvanceFromLonger(v: View, me: nat, r: Replica, k: Core, k': Core)
    requires |r.core.log| == |k.log|
    ensures Advance(v, me, r.(core := k), k') == Advance(v, me, r, k')
  {
  }

  /** Processing a gap that comes next leaves a no-op there. */
  lemma PlaceGap(k: Core)
    requires |k.log| + 1 in k.gaps
    ensures var s := Place(k, k.next, NoOp); |s.log| > |k.log| && MarkNoop(s, |k.log| + 1) == s
  {
    var k1 := Put(k, k.next, NoOp);
    SettleKeeps(k1, |k.log|);
    var s := Settle(k1);
    assert s.log[|k.log| := s.log[|k.log|].(content := NoOp)] == s.log;
  }

  lemma {:induction false} SettleKeeps(k: Core, j: nat)
    requires j < |k.log|
    ensures |Settle(k).log| >= |k.log| && Settle(k).log[j] == k.log[j]
    decreases Above(k)
  {
    if |k.log| + 1 in k.gaps {
      PutConsumes(k);
      SettleKeeps(Put(k, k.next, NoOp), j);
    }
  }

  lemma InstallGapLonger(k: Core, gap: nat)
    requires gap >= 1
    ensures |InstallGap(k, gap).log| >= |k.log|
  {
    if gap !in k.gaps && |k.log| + 1 == gap {
      var k1 := k.(gaps := k.gaps + {gap});
      SettleGrows(Put(k1, k1.next, NoOp));
    }
  }

  lemma {:induction false} InstallLonger(k: Core, gaps: seq<nat>)
    requires forall i :: 0 <= i < |gaps| ==> gaps[i] >= 1
    ensures |InstallGaps(k, gaps).log| >= |k.log|
    decreases |gaps|
  {
    if gaps != [] {
      InstallLonger(k, gaps[..|gaps| - 1]);
      InstallGapLonger(InstallGaps(k, gaps[..|gaps| - 1]), gaps[|gaps| - 1]);
    }
  }

  lemma NoGaps(v: View, me: nat, r: Replica)
    ensures Advance(v, me, r, InstallGaps(r.core, [])) == (r, {})
  {
  }

  /** Gaps may be installed one after the other, each followed by what it sets off. */
  lemma OneMoreGap(v: View, me: nat, r: Replica, k: Core, gap: nat, s: Replica, out: set<Message>)
    requires gap >= 1 && |r.core.log| <= |k.log| && (s, out) == Advance(v, me, r, k)
    ensures s.core == k
    ensures var (t, more) := Advance(v, me, s, InstallGap(k, gap));
            Advance(v, me, r, InstallGap(k, gap)) == (t, out + more)
  {
    AdvanceCore(v, me, r, k);
    InstallGapLonger(k, gap);
    AdvanceTwice(v, me, r, k, InstallGap(k, gap));
  }

  lemma InstallGapsNext(k: Core, gs: seq<nat>, i: nat)
    requires i < |gs| && forall j :: 0 <= j < |gs| ==> gs[j] >= 1
    ensures InstallGaps(k, gs[..i + 1]) == InstallGap(InstallGaps(k, gs[..i]), gs[i])
    ensures |InstallGaps(k, gs[..i]).log| >= |k.log|
  {
    assert gs[..i + 1][..i] == gs[..i];
    InstallLonger(k, gs[..i]);
  }

  /** A result preceded by messages already sent. */
  function Then(out: set<Message>, res: Installed): Installed {
    res.(out := out + res.out)
  }

  lemma ThenNothing(res: Installed)
    ensures Then({}, res) == res
  {
    assert {} + res.out == res.out;
  }

  lemma ThenEnd(out: set<Message>, r: Replica, ok: bool)
    ensures Then(out, Installed(r, {}, ok)) == Installed(r, out, ok)
  {
    assert out + {} == out;
  }

  lemma ThenTwice(out: set<Message>, more: set<Message>, res: Installed)
    ensures Then(out, Then(more, res)) == Then(out + more, res)
  {
    assert out + (more + res.out) == (out + more) + res.out;
  }

  lemma InstallUnfolds(v: View, me: nat, r: Replica, op: nat, entries: seq<Slot>)
    requires entries != []
    ensures op != |r.core.log| + 1 ==> Install(v, me, r, op, entries) == Installed(r, {}, false)
    ensures op == |r.core.log| + 1 ==>
              var (s, out) := Process(v, me, r, entries[0].msgnum, entries[0].content);
              Install(v, me, r, op, entries) == Then(out, Install(v, me, s, op + 1, entries[1..]))
  {
  }

  lemma ExecuteBeforeCommit(v: View, me: nat, s: Replica, op: nat, point: nat)
    ensures var (t, out) := ProcessSyncPrepare(v, me, s, point);
            ProcessSyncPrepare(v, me, s.(executed := Max(s.executed, op)), point) ==
            (t.(executed := Max(t.executed, op)), out)
  {
  }

  class Server {
    const v: View
    const me: nat
    var log: seq<Slot>
    var gaps: set<nat>
    var next: nat
    var committed: nat
    var executed: nat
    var active: bool
    var gapCommit: bool
    var gapRequested: bool
    var missing: map<nat, set<nat>>
    var gapOKs: set<nat>
    var syncPoint: nat
    var syncGaps: seq<nat>
    var syncOKs: map<nat, set<nat>>
    var prepares: set<nat>
    var commits: set<nat>
    var transfer: Transfer

    /** The fields as one value of the protocol. */
    function State(): Replica
      reads this
    {
      Replica(Core(log, gaps, next), committed, executed, active, gapCommit, gapRequested, missing, gapOKs,
              syncPoint, syncGaps, syncOKs, prepares, commits, transfer)
    }

    /** As it enters the view; in the first view the log is empty. */
    constructor (v: View, me: nat, committed: nat, executed: nat)
      requires committed <= |v.base| && executed <= |v.base|
      ensures Entering(v, me, State()) && this.v == v && this.me == me
      ensures this.committed == committed && this.executed == executed
    {
      this.v, this.me, this.committed, this.executed := v, me, committed, executed;
      log, gaps, next := v.base, NoopOps(v.base), v.next;
      active, gapCommit, gapRequested, missing, gapOKs := true, false, false, map[], {};
      syncPoint := if me == v.leader then |v.base| else 0;
      syncGaps := if me == v.leader then Listed(NoopOps(v.base), |v.base|) else [];
      syncOKs, commits, transfer := map[], {}, Idle;
      prepares := if me == v.leader then {} else {|v.base|};
    }

    method Commit(op: nat) returns (out: set<Message>)
      modifies this`committed, this`executed
      ensures (State(), out) == CommitUpTo(v, me, old(State()), op)
    {
      out := {};
      if op <= committed {
        return;
      }
      committed := op;
      if me == v.leader {
        out := {SyncCommit(committed)};
      }
      if executed < op {
        executed := op;
      }
    }

    method LogComplete(point: nat) returns (out: set<Message>)
      modifies this`committed, this`executed, this`prepares, this`commits
      ensures (State(), out) == ProcessSyncPrepare(v, me, old(State()), point)
    {
      if point in commits {
        out := Commit(point);
        prepares, commits := prepares - {point}, commits - {point};
      } else {
        out := {SyncPrepareReply(point, me)};
      }
    }

    /** Appends the slot; a pending gap request is cancelled. */
    method AppendSlot(msgnum: nat, content: Content) returns (kept: Content)
      modifies this`log, this`gaps, this`next, this`gapRequested, this`missing
      ensures kept == if |old(log)| + 1 in old(gaps) then NoOp else content
      ensures var r, k := old(State()), Put(old(State()).core, msgnum, content);
              State() == Moved(r, k).(transfer := r.transfer)
    {
      var op := |log| + 1;
      next := msgnum + 1;
      kept := if op in gaps then NoOp else content;
      log := log + [Slot(msgnum, kept)];
      if gapRequested {
        gapRequested, missing := false, map[];
      }
      if kept.NoOp? {
        gaps := gaps + {op};
      }
    }

    /** Answers the client; the leader executes. */
    method Answer(op: nat, req: Request) returns (out: set<Message>)
      modifies this`executed
      ensures out == {Reply(op, me, Id(req))}
      ensures State() == if me == v.leader then old(State()).(executed := Max(old(executed), op)) else old(State())
    {
      out := {Reply(op, me, Id(req))};
      if me == v.leader && executed < op {
        executed := op;
      }
    }

    /** Appends one operation, with everything that happens before following gaps are looked at. */
    method AppendOne(msgnum: nat, content: Content) returns (out: set<Message>)
      modifies this
      ensures (State(), out) == Single(v, me, old(State()), msgnum, content)
      ensures State().core == Put(old(State()).core, msgnum, content)
    {
      ghost var r, k := State(), Put(State().core, msgnum, content);
      out := {};
      var op := |log| + 1;
      var kept := AppendSlot(msgnum, content);
      if kept.Op? {
        out := Answer(op, kept.req);
      }
      ghost var answered := executed;
      if transfer.Transfer? && op == transfer.end {
        transfer := transfer.(requested := false);
        assert State() == Moved(r, k).(executed := answered);
        ExecuteBeforeCommit(v, me, Moved(r, k), op, op - 1);
        var more := LogComplete(op - 1);
        out := more + out;
        assert more + {} == more;
      } else {
        assert State() == Moved(r, k).(executed := answered);
        assert {} + out == out;
      }
    }

    method ProcessNext(msgnum: nat, content: Content) returns (out: set<Message>)
      modifies this
      ensures (State(), out) == Process(v, me, old(State()), msgnum, content)
      decreases Above(Core(log, gaps, next)), |log| + 1 !in gaps
    {
      ghost var r := State();
      out := AppendOne(msgnum, content);
      if |log| + 1 in gaps {
        ProcessSplits(v, me, r, msgnum, content);
        assert Above(State().core) <= Above(r.core);
        assert |r.core.log| + 1 in r.core.gaps ==> |r.core.log| + 1 in Above(r.core);
        var more := ProcessNext(next, NoOp);
        out := out + more;
      } else {
        ProcessAlone(v, me, r, msgnum, content);
      }
    }

    /** Records one committed gap, advancing or overwriting the log where it can. */
    method RecordGap(gap: nat) returns (out: set<Message>)
      requires gap >= 1
      modifies this
      ensures (State(), out) == Advance(v, me, old(State()), InstallGap(old(State()).core, gap))
    {
      ghost var r := State();
      out := {};
      if gap !in gaps {
        gaps := gaps + {gap};
        ghost var k1 := State().core;
        if |log| + 1 == gap {
          SettleGrows(Put(k1, next, NoOp));
          out := ProcessNext(next, NoOp);
          AdvanceFromLonger(v, me, r, k1, State().core);
          PlaceGap(k1);
        } else if gap <= |log| && log[gap - 1].content != NoOp {
          log := log[gap - 1 := log[gap - 1].(content := NoOp)];
        } else if gap <= |log| {
          assert log[gap - 1 := log[gap - 1].(content := NoOp)] == log;
        }
      }
      assert State() == Advance(v, me, r, InstallGap(r.core, gap)).0;
    }

    method RecordGaps(gs: seq<nat>) returns (out: set<Message>)
      requires forall i :: 0 <= i < |gs| ==> gs[i] >= 1
      modifies this
      ensures (State(), out) == Advance(v, me, old(State()), InstallGaps(old(State()).core, gs))
    {
      ghost var r := State();
      out := {};
      NoGaps(v, me, r);
      for i := 0 to |gs|
        invariant (State(), out) == Advance(v, me, r, InstallGaps(r.core, gs[..i]))
      {
        InstallGapsNext(r.core, gs, i);
        OneMoreGap(v, me, r, InstallGaps(r.core, gs[..i]), gs[i], State(), out);
        var more := RecordGap(gs[i]);
        out := out + more;
      }
      assert gs[..|gs|] == gs;
    }

    method OnRequest(msgnum: nat, req: Request) returns (out: set<Message>)
      modifies this
      ensures (State(), out) == HandleRequest(v, me, old(State()), msgnum, req)
    {
      out := {};
      if gapCommit {
        return;
      }
      if msgnum < next {
        return;
      }
      if msgnum > next {
        if next != 1 {
          if !gapRequested {
            gapRequested := true;
            out := {GapRequest(|log| + 1)};
          }
          return;
        }
      }
      out := ProcessNext(msgnum, Op(req));
    }

    method BeginGapAgreement() returns (out: set<Message>)
      requires me == v.leader
      modifies this
      ensures (State(), out) == StartGapAgreement(v, old(State()))
    {
      missing, gapRequested := map[], false;
      gapCommit, gapOKs := true, {};
      out := ProcessNext(next, NoOp);
      out := out + {GapCommit(|log|)};
    }

    /** An answer to a gap request: the operation as another replica has it, or that replica does not have it either. */
    method OnGapReply(op: nat, found: Option<Content>, replica: nat) returns (out: set<Message>)
      modifies this
      ensures (State(), out) == match found
                                case Some(content) => HandleGapFound(v, me, old(State()), op, content)
                                case None => HandleGapMissing(v, me, old(State()), op, replica)
    {
      out := {};
      if op != |log| + 1 || gapCommit {
        return;
      }
      if found.Some? {
        out := ProcessNext(next, found.value);
      } else if me == v.leader {
        missing := AddVote(missing, op, replica);
        if |missing[op]| >= v.c.n - 1 {
          out := BeginGapAgreement();
        }
      }
    }

    method OnGapCommitReply(op: nat, replica: nat)
      requires me == v.leader
      modifies this`gapCommit, this`gapOKs
      ensures State() == HandleGapCommitReply(v, old(State()), op, replica)
    {
      if !gapCommit || op != |log| {
        return;
      }
      gapOKs := gapOKs + {replica};
      if |gapOKs| >= QuorumSize(v.c) - 1 {
        gapCommit, gapOKs := false, {};
      }
    }

    method OnGapCommit(op: nat) returns (out: set<Message>)
      requires op >= 1
      modifies this
      ensures (State(), out) == HandleGapCommit(v, me, old(State()), op)
    {
      out := {};
      if |log| + 1 < op {
        gaps := gaps + {op};
        return;
      }
      if |log| >= op {
        gaps := gaps + {op};
        log := log[op - 1 := log[op - 1].(content := NoOp)];
        assert out + {GapCommitReply(op, me)} == {GapCommitReply(op, me)};
      } else {
        out := ProcessNext(next, NoOp);
      }
      out := out + {GapCommitReply(op, me)};
    }

    method OnSyncPrepare(point: nat, gs: seq<nat>) returns (out: set<Message>)
      requires forall i :: 0 <= i < |gs| ==> gs[i] >= 1
      modifies this
      ensures (State(), out) == HandleSyncPrepare(v, me, old(State()), point, gs)
    {
      out := {};
      if committed >= point {
        return;
      }
      prepares := prepares + {point};
      out := RecordGaps(gs);
      var more := CompleteLog(point);
      out := out + more;
    }

    method CompleteLog(point: nat) returns (out: set<Message>)
      modifies this
      ensures (State(), out) == AfterGaps(v, me, old(State()), point)
    {
      out := {};
      if |log| < point {
        var requested := transfer.Transfer? && transfer.requested;
        transfer := Transfer(|log| + 1, point + 1, requested);
        if point - |log| <= MAX_SYNC_TRANSFER_OPS {
          transfer := transfer.(requested := true);
          out := {StateTransferRequest(me, transfer.begin, transfer.end)};
        }
      } else {
        out := LogComplete(point);
      }
    }

    method OnSyncCommit(point: nat) returns (out: set<Message>)
      modifies this
      ensures (State(), out) == HandleSyncCommit(v, me, old(State()), point)
    {
      out := {};
      if committed >= point {
        return;
      }
      commits := commits + {point};
      if point in prepares {
        if |log| >= point {
          out := Commit(point);
          prepares, commits := prepares - {point}, commits - {point};
        }
      } else {
        out := {SyncPrepareRequest};
      }
    }

    method OnSyncPrepareReply(point: nat, replica: nat) returns (out: set<Message>)
      requires me == v.leader
      modifies this
      ensures (State(), out) == HandleSyncPrepareReply(v, old(State()), point, replica)
    {
      out := {};
      if committed >= point || point != syncPoint {
        return;
      }
      syncOKs := AddVote(syncOKs, point, replica);
      if |syncOKs[point]| >= QuorumSize(v.c) - 1 {
        out := Commit(point);
      }
    }

    /** Installs entries from operation `op` on; `ok` is false when the check on an entry's number fails. */
    method InstallEntries(op: nat, entries: seq<Slot>) returns (ok: bool, out: set<Message>)
      modifies this
      ensures Installed(State(), out, ok) == Install(v, me, old(State()), op, entries)
    {
      ok, out := true, {};
      ghost var target := Install(v, me, State(), op, entries);
      ThenNothing(target);
      assert entries[0..] == entries;
      for i := 0 to |entries|
        invariant target == Then(out, Install(v, me, State(), op + i, entries[i..]))
      {
        InstallUnfolds(v, me, State(), op + i, entries[i..]);
        assert entries[i..][1..] == entries[i + 1..];
        if op + i != |log| + 1 {
          ThenEnd(out, State(), false);
          ok := false;
          return;
        }
        var more := ProcessNext(entries[i].msgnum, entries[i].content);
        ThenTwice(out, more, Install(v, me, State(), op + i + 1, entries[i + 1..]));
        out := out + more;
      }
      ThenEnd(out, State(), true);
    }

    method OnStateTransferReply(begin: nat, entries: seq<Slot>) returns (ok: bool, out: set<Message>)
      requires 1 <= begin <= |log| + 1
      modifies this
      ensures Installed(State(), out, ok) == HandleStateTransferReply(v, me, old(State()), begin, entries)
    {
      ok, out := true, {};
      if begin + |entries| <= |log| + 1 {
        return;
      }
      ok, out := InstallEntries(|log| + 1, entries[|log| + 1 - begin..]);
    }

    /** Leaving the view: committed gaps beyond the log are dropped, largest first. */
    method ForgetFutureGaps()
      modifies this`gaps
      ensures gaps == set g | g in old(gaps) && g <= |log|
    {
      while gaps != {}
        invariant gaps <= old(gaps)
        invariant forall g :: g in old(gaps) && g <= |log| ==> g in gaps
        decreases gaps
      {
        var last := Largest(gaps);
        if last > |log| {
          gaps := gaps - {last};
        } else {
          break;
        }
      }
    }
  }

  /** The largest element, found by a scan. */
  method Largest(s: set<nat>) returns (m: nat)
    requires s != {}
    ensures m in s && forall x :: x in s ==> x <= m
  {
    m :| m in s;
    var rest := s - {m};
    while rest != {}
      invariant m in s && rest <= s
      invariant forall x :: x in s && x !in rest ==> x <= m
      decreases rest
    {
      var x :| x in rest;
      if x > m {
        m := x;
      }
      rest := rest - {x};
    }
  }
}

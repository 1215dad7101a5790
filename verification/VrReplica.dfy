/** The Viewstamped Replication replica object, with the loops of the code. */
module VrReplica {
  import opened Quorums
  import opened Logs
  import opened Vr

  lemma RecordOneMore(t: map<nat, nat>, reqs: seq<Request>, req: Request)
    ensures RecordAll(t, reqs + [req]) == Record(RecordAll(t, reqs), req)
  {
  }

  function OKsBelow(me: nat, committed: nat, lo: nat, i: nat): set<Message> {
    set x: nat | lo <= x < i && x > committed :: PrepareOK(x, me)
  }

  lemma OKsNext(me: nat, committed: nat, lo: nat, i: nat)
    requires lo <= i
    ensures OKsBelow(me, committed, lo, i + 1) ==
              OKsBelow(me, committed, lo, i) + if i > committed then {PrepareOK(i, me)} else {}
  {
  }

  lemma OKsAll(me: nat, committed: nat, lo: nat, hi: nat)
    ensures OKsBelow(me, committed, lo, hi + 1) == OKs(me, committed, lo, hi)
  {
  }

  lemma WholeTail(log: seq<Request>, from: nat)
    requires from <= |log|
    ensures log[from..|log|] == log[from..]
  {
  }

  class Process {
    const v: View
    const me: nat
    var log: seq<Request>
    var committed: nat
    var executed: seq<Request>
    var table: map<nat, nat>
    var lastBatchEnd: nat
    var batchComplete: bool
    var lastPrepare: Option<Message>
    var oks: map<nat, set<nat>>

    function State(): Replica
      reads this
    {
      Replica(log, committed, executed, table, lastBatchEnd, batchComplete, lastPrepare, oks)
    }

    /** As it enters the view, with the base log executed up to its commit point. */
    constructor (v: View, me: nat, committed: nat, table: map<nat, nat>)
      requires committed <= |v.base| && InClientOrder(v.base, table)
      ensures Entering(v, State()) && this.v == v && this.me == me
      ensures this.committed == committed && this.table == table
    {
      this.v, this.me, this.committed, this.table := v, me, committed, table;
      log, executed, lastBatchEnd := v.base, v.base[..committed], |v.base|;
      batchComplete, lastPrepare, oks := true, None, map[];
    }

    method UpdateClientTable(req: Request)
      modifies this`table
      ensures table == Record(old(table), req)
    {
      if req.clientid !in table || table[req.clientid] < req.clientreqid {
        table := table[req.clientid := req.clientreqid];
      }
    }

    method Execute(upto: nat)
      requires committed <= |log| && upto <= |log|
      modifies this`committed, this`executed, this`table
      ensures State() == CommitUpTo(old(State()), upto)
    {
      ghost var from := committed;
      assert log[from..from] == [];
      while committed < upto
        invariant from <= committed && (committed <= upto || committed == from)
        invariant executed == old(executed) + log[from..committed]
        invariant table == RecordAll(old(table), log[from..committed])
      {
        committed := committed + 1;
        var req := log[committed - 1];
        assert log[from..committed] == log[from..committed - 1] + [req];
        RecordOneMore(old(table), log[from..committed - 1], req);
        executed := executed + [req];
        UpdateClientTable(req);
      }
    }

    /** Gathers the operations since the last batch into one prepare. */
    method SendBatch() returns (out: set<Message>)
      requires lastBatchEnd <= |log|
      modifies this`lastBatchEnd, this`batchComplete, this`lastPrepare
      ensures (State(), out) == CloseBatch(old(State()))
    {
      var reqs := [];
      var i := lastBatchEnd + 1;
      while i <= |log|
        invariant lastBatchEnd + 1 <= i <= |log| + 1 && lastBatchEnd == old(lastBatchEnd)
        invariant reqs == log[lastBatchEnd..i - 1]
        invariant batchComplete == old(batchComplete) && lastPrepare == old(lastPrepare)
      {
        reqs := reqs + [log[i - 1]];
        i := i + 1;
      }
      assert log[lastBatchEnd..|log|] == log[lastBatchEnd..];
      var p := Prepare(lastBatchEnd + 1, |log|, reqs);
      lastBatchEnd, batchComplete, lastPrepare := |log|, false, Some(p);
      out := {p};
    }

    method OnRequest(req: Request, replicate: bool, res: string) returns (out: set<Message>)
      requires lastBatchEnd <= |log|
      modifies this
      ensures (State(), out) == HandleRequest(v, old(State()), req, replicate, res)
    {
      out := {};
      if req.clientid in table {
        if req.clientreqid < table[req.clientid] {
          return;
        }
        if req.clientreqid == table[req.clientid] {
          return;
        }
      }
      UpdateClientTable(req);
      if !replicate {
        return;
      }
      log := log + [req.(op := res)];
      if batchComplete || |log| - lastBatchEnd + 1 > v.batchSize {
        out := SendBatch();
      }
    }

    method OnPrepare(start: nat, op: nat, reqs: seq<Request>) returns (out: set<Message>)
      requires 1 <= start <= op && |reqs| == op - start + 1
      modifies this
      ensures (State(), out) == HandlePrepare(me, old(State()), start, op, reqs)
    {
      if op <= |log| {
        return {PrepareOK(op, me)};
      }
      if start > |log| + 1 {
        return {RequestStateTransfer(me, committed)};
      }
      AddOperations(start, reqs);
      out := {PrepareOK(op, me)};
    }

    /** Appends the operations of a batch that are new. */
    method AddOperations(start: nat, reqs: seq<Request>)
      requires 1 <= start <= |log| + 1 <= start + |reqs|
      modifies this`log, this`table
      ensures var more := reqs[old(|log|) + 1 - start..];
              log == old(log) + more && table == RecordAll(old(table), more)
    {
      ghost var skip := |log| + 1 - start;
      for k := 0 to |reqs|
        invariant k <= skip ==> log == old(log) && table == old(table)
        invariant k >= skip ==> log == old(log) + reqs[skip..k] && table == RecordAll(old(table), reqs[skip..k])
      {
        if start + k > |log| {
          assert reqs[skip..k + 1] == reqs[skip..k] + [reqs[k]];
          RecordOneMore(old(table), reqs[skip..k], reqs[k]);
          log := log + [reqs[k]];
          UpdateClientTable(reqs[k]);
        }
      }
      assert reqs[skip..|reqs|] == reqs[skip..];
    }

    method OnPrepareOK(op: nat, replica: nat) returns (out: set<Message>)
      requires committed <= |log| && op <= |log| && lastBatchEnd <= |log|
      modifies this
      ensures (State(), out) == HandlePrepareOK(v, old(State()), op, replica)
    {
      out := {};
      oks := AddVote(oks, op, replica);
      var count := |oks[op]|;
      if count >= QuorumSize(v.c) - 1 {
        Execute(op);
        if count >= QuorumSize(v.c) {
          return;
        }
        out := {Commit(committed)};
        if lastBatchEnd == op {
          batchComplete := true;
          if |log| > lastBatchEnd {
            var more := SendBatch();
            out := out + more;
          }
        }
      }
    }

    method OnCommit(op: nat) returns (out: set<Message>)
      requires committed <= |log|
      modifies this
      ensures (State(), out) == HandleCommit(me, old(State()), op)
    {
      out := {};
      if op <= committed {
        return;
      }
      if op > |log| {
        return {RequestStateTransfer(me, committed)};
      }
      Execute(op);
    }

    /** Appends the transferred entries that are new. */
    method InstallEntries(begin: nat, entries: seq<Request>)
      requires 1 <= begin <= committed + 1 && committed <= |log|
      modifies this`log
      ensures State() == TakeOver(old(State()), begin, entries)
    {
      ghost var have := |log| + 1 - begin;
      for k := 0 to |entries|
        invariant k <= have ==> log == old(log)
        invariant k >= have ==> log == old(log) + entries[have..k]
      {
        if begin + k > |log| {
          assert begin + k == |log| + 1;
          log := log + [entries[k]];
        }
      }
      assert |entries| > have ==> entries[have..|entries|] == entries[have..];
    }

    /** Acknowledges the uncommitted operations from `lo` on. */
    method SendPrepareOKs(lo: nat) returns (out: set<Message>)
      requires lo <= |log|
      modifies this`table
      ensures (State(), out) == Acknowledge(me, old(State()), lo)
    {
      ghost var first := FirstNew(lo, committed);
      out := {};
      var i := lo;
      while i <= |log|
        invariant lo <= i <= |log| + 1
        invariant out == OKsBelow(me, committed, lo, i)
        invariant i <= first ==> table == old(table)
        invariant i > first ==> table == RecordAll(old(table), log[first - 1..i - 1])
      {
        OKsNext(me, committed, lo, i);
        if i > committed {
          assert log[first - 1..i] == log[first - 1..i - 1] + [log[i - 1]];
          RecordOneMore(old(table), log[first - 1..i - 1], log[i - 1]);
          UpdateClientTable(log[i - 1]);
          out := out + {PrepareOK(i, me)};
        }
        i := i + 1;
      }
      OKsAll(me, committed, lo, |log|);
      if first <= |log| {
        WholeTail(log, first - 1);
      }
    }

    method OnStateTransfer(begin: nat, entries: seq<Request>, upto: nat) returns (out: set<Message>)
      requires 1 <= begin <= committed + 1 && committed <= |log| && upto <= begin - 1 + |entries|
      modifies this
      ensures (State(), out) == HandleStateTransfer(me, old(State()), begin, entries, upto)
    {
      var oldLastOp := |log|;
      InstallEntries(begin, entries);
      Execute(upto);
      out := SendPrepareOKs(oldLastOp);
    }
  }
}

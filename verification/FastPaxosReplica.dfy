/** The Fast Paxos replica object; each handler does to the fields what the protocol says. */
module FastPaxosReplica {
  import opened Quorums
  import opened Logs
  import opened FastPaxos

  class Process {
    const c: Config
    const me: nat
    var log: seq<Request>
    var lastFastPath: nat
    var lastSlowPath: nat
    var lastCommitted: nat
    var clientTable: map<nat, nat>
    var executed: seq<Request>
    var fastOKs: map<nat, set<nat>>
    var slowOKs: map<nat, set<nat>>

    /** The fields as one value of the protocol. */
    function State(): Replica
      reads this
    {
      Replica(log, lastFastPath, lastSlowPath, lastCommitted, clientTable, executed, fastOKs, slowOKs)
    }

    constructor (c: Config, me: nat)
      ensures State() == Initial() && this.c == c && this.me == me
    {
      this.c, this.me := c, me;
      log, lastFastPath, lastSlowPath, lastCommitted := [], 0, 0, 0;
      clientTable, executed, fastOKs, slowOKs := map[], [], map[], map[];
    }

    method RecordRequest(req: Request)
      modifies this`clientTable
      ensures clientTable == UpdateClientTable(old(clientTable), req)
    {
      if req.clientid !in clientTable || clientTable[req.clientid] < req.clientreqid {
        clientTable := clientTable[req.clientid := req.clientreqid];
      }
    }

    method Commit(upto: nat)
      requires InBounds(State()) && upto <= |log|
      modifies this
      ensures State() == CommitUpTo(old(State()), upto)
    {
      while lastCommitted < upto
        invariant lastCommitted <= upto || lastCommitted == old(lastCommitted)
        invariant old(lastCommitted) <= lastCommitted && log == old(log)
        invariant State() == ExecuteUpTo(old(State()), lastCommitted)
      {
        lastCommitted := lastCommitted + 1;
        var req := log[lastCommitted - 1];
        executed := executed + [req];
        RecordRequest(req);
      }
      if lastSlowPath < lastCommitted {
        lastSlowPath := lastCommitted;
      }
    }

    method OnRequest(req: Request) returns (out: set<Message>)
      requires InBounds(State())
      modifies this
      ensures (State(), out) == HandleRequest(me, old(State()), req)
    {
      out := {};
      if req.clientid in clientTable {
        if req.clientreqid < clientTable[req.clientid] {
          return;
        }
        if req.clientreqid == clientTable[req.clientid] {
          return;
        }
      }
      RecordRequest(req);
      lastFastPath := lastFastPath + 1;
      if me == LEADER {
        lastSlowPath := lastFastPath;
      }
      log := log + [req];
      if me != LEADER {
        out := {PrepareOK(lastFastPath, me, false, req)};
      }
    }

    /** Makes the leader's request the next slow-path operation, overwriting what is there. */
    method AdoptNext(req: Request)
      requires InBounds(State())
      modifies this
      ensures State() == Adopt(old(State()), req)
    {
      if lastSlowPath + 1 > lastFastPath {
        lastFastPath, lastSlowPath := lastFastPath + 1, lastSlowPath + 1;
        log := log + [req];
      } else {
        log := log[lastSlowPath := req];
        lastSlowPath := lastSlowPath + 1;
      }
    }

    method OnPrepare(op: nat, req: Request) returns (out: set<Message>)
      requires InBounds(State())
      modifies this
      ensures (State(), out) == HandlePrepare(me, old(State()), op, req)
    {
      if op <= lastSlowPath {
        return {PrepareOK(op, me, true, req)};
      }
      if op > lastSlowPath + 1 {
        return {RequestStateTransfer(me, lastCommitted)};
      }
      AdoptNext(req);
      RecordRequest(req);
      out := {PrepareOK(op, me, true, req)};
    }

    /** Notes a follower's reply and counts the followers heard from. */
    method AddAndCount(op: nat, replica: nat, slowpath: bool) returns (count: nat)
      modifies this`fastOKs, this`slowOKs
      ensures State() == CountVote(old(State()), op, replica, slowpath)
      ensures count == |VotesFor(State(), op, slowpath)|
    {
      var votes := if slowpath then slowOKs else fastOKs;
      var heard := (if op in votes then votes[op] else {}) + {replica};
      votes := votes[op := heard];
      if slowpath {
        slowOKs := votes;
      } else {
        fastOKs := votes;
      }
      count := |heard|;
    }

    method OnPrepareOK(op: nat, replica: nat, slowpath: bool, req: Request) returns (out: set<Message>)
      requires InBounds(State())
      modifies this
      ensures (State(), out) == HandlePrepareOK(c, old(State()), op, replica, slowpath, req)
    {
      out := {};
      if op <= lastCommitted || op > lastSlowPath {
        return;
      }
      if !slowpath && Id(log[op - 1]) != Id(req) {
        return ResendPrepare(State());
      }
      var count := AddAndCount(op, replica, slowpath);
      if count >= Required(c, slowpath) {
        Commit(op);
        if count > Required(c, slowpath) {
          return;
        }
        out := {Message.Commit(lastCommitted, log[op - 1])};
      }
    }

    method OnCommit(op: nat, req: Request) returns (out: set<Message>)
      requires InBounds(State())
      modifies this
      ensures (State(), out) == HandleCommit(me, old(State()), op, req)
    {
      out := {};
      if op <= lastCommitted {
        return;
      }
      if op > lastFastPath {
        return {RequestStateTransfer(me, lastCommitted)};
      }
      if op > lastSlowPath {
        if op > lastSlowPath + 1 {
          return;
        }
        log := log[op - 1 := req];
      }
      Commit(op);
    }

    /** Installs the transferred entries, numbered from `begin`. */
    method InstallEntries(begin: nat, entries: seq<Request>)
      requires InBounds(State()) && 1 <= begin <= lastCommitted + 1
      modifies this
      ensures State() == TakeOver(old(State()), begin, entries)
    {
      for k := 0 to |entries|
        invariant InBounds(State()) && lastCommitted == old(lastCommitted)
        invariant State() == TakeOver(old(State()), begin, entries[..k])
      {
        assert entries[..k + 1][..k] == entries[..k];
        if begin + k > lastSlowPath {
          AdoptNext(entries[k]);
        }
      }
      assert entries[..|entries|] == entries;
    }

    /** Acknowledges the uncommitted slow-path operations from `from` on. */
    method SendPrepareOKs(from: nat) returns (out: set<Message>)
      requires InBounds(State()) && from <= lastSlowPath
      modifies this`clientTable
      ensures out == SlowOKs(me, log, lastCommitted, from, lastSlowPath)
      ensures clientTable == RecordRange(old(clientTable), log, FirstNew(from, lastCommitted) - 1, lastSlowPath)
    {
      ghost var first := FirstNew(from, lastCommitted);
      out := {};
      var i := from;
      while i <= lastSlowPath
        invariant from <= i <= lastSlowPath + 1
        invariant i > from ==> out == SlowOKs(me, log, lastCommitted, from, i - 1)
        invariant i == from ==> out == {}
        invariant i >= first ==> clientTable == RecordRange(old(clientTable), log, first - 1, i - 1)
        invariant i < first ==> clientTable == old(clientTable)
      {
        if i > lastCommitted {
          RecordRequest(log[i - 1]);
          out := out + {PrepareOK(i, me, true, log[i - 1])};
        }
        i := i + 1;
      }
    }

    method OnStateTransfer(begin: nat, entries: seq<Request>, committed: nat) returns (out: set<Message>)
      requires InBounds(State()) && 1 <= begin <= lastCommitted + 1
      requires committed <= begin - 1 + |entries|
      modifies this
      ensures (State(), out) == HandleStateTransfer(me, old(State()), begin, entries, committed)
    {
      var oldLastSlowPath := lastSlowPath;
      InstallEntries(begin, entries);
      Commit(committed);
      out := SendPrepareOKs(oldLastSlowPath);
    }
  }
}

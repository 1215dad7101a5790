/**
 * A speculative replica: it executes requests as they arrive, rolls back what reconciliation rejects,
 * and installs merged logs. Its client table always is what replaying its log would produce.
 */
module SpecReplica {
  import opened Numbers
  import opened Logs
  import opened ClientTables

  /** `Failed`: the entry to answer a repeat from is not there, and an assertion stops the replica. */
  datatype RequestOutcome = Stale | Duplicate(reply: Entry) | Failed | Deferred | Executed

  /** Entry for entry the same but for the status. */
  predicate SameButStatus(es: seq<Entry>, fs: seq<Entry>) {
    |es| == |fs| && forall i :: 0 <= i < |es| ==> es[i].(state := fs[i].state) == fs[i]
  }

  /** Exactly the first `committed` entries are committed; the others are speculative. */
  predicate StatusUpTo(es: seq<Entry>, committed: nat) {
    forall i :: 0 <= i < |es| ==> es[i].state == if i < committed then Committed else Speculative
  }

  /** The newest operation of a list that is not speculative. */
  function LastCommittedIn(list: seq<Entry>): nat {
    if list == [] then 0
    else if list[|list| - 1].state != Speculative then list[|list| - 1].opnum
    else LastCommittedIn(list[..|list| - 1])
  }

  /** A list of merged entries continues a log: it extends the log's hash at the point where it starts. */
  predicate Grafts(es: seq<Entry>, list: seq<Entry>) {
    list != [] ==>
      && Numbered(list, list[0].opnum) && Linked(list)
      && 1 <= list[0].opnum <= |es| + 1
      && ExtendsHash(HashUpTo(EmptyHash, es, list[0].opnum - 1), list[0])
  }

  /** The log that installing `list` aims for. */
  function Target(es: seq<Entry>, list: seq<Entry>): (t: seq<Entry>)
    requires Grafts(es, list)
  {
    if list == [] then [] else es[..list[0].opnum - 1] + list
  }

  /** The list agrees with what the replica has committed, and reaches at least that far. */
  predicate AgreesWithCommitted(es: seq<Entry>, list: seq<Entry>, committed: nat)
    requires committed <= |es| && Grafts(es, list)
  {
    && committed <= |Target(es, list)|
    && forall i :: 0 <= i < committed ==> Target(es, list)[i].hash == es[i].hash
  }

  /** How far two logs agree. */
  function Common(es: seq<Entry>, fs: seq<Entry>, from: nat): (k: nat)
    requires from <= |es| && from <= |fs|
    ensures from <= k <= |es| && k <= |fs|
    ensures forall i :: from <= i < k ==> es[i].hash == fs[i].hash
    ensures k < |es| && k < |fs| ==> es[k].hash != fs[k].hash
    decreases |es| - from
  {
    if from == |es| || from == |fs| || es[from].hash != fs[from].hash then from
    else Common(es, fs, from + 1)
  }

  lemma {:induction false} CommonSkip(es: seq<Entry>, fs: seq<Entry>, from: nat, k: nat)
    requires from <= k <= |es| && k <= |fs|
    requires forall i :: from <= i < k ==> es[i].hash == fs[i].hash
    ensures Common(es, fs, from) == Common(es, fs, k)
    decreases k - from
  {
    if from < k {
      CommonSkip(es, fs, from + 1, k);
    }
  }

  /** Up to the commit point, and before the list starts, log and target agree. */
  lemma TargetStart(es: seq<Entry>, list: seq<Entry>, committed: nat)
    requires committed <= |es| && Grafts(es, list) && AgreesWithCommitted(es, list, committed)
    ensures var t := Target(es, list); var k := Max(committed + 1, if list == [] then 0 else list[0].opnum) - 1;
            k <= |es| && k <= |t| && forall i :: 0 <= i < k ==> es[i].hash == t[i].hash
  {
  }

  lemma TargetChained(es: seq<Entry>, list: seq<Entry>)
    requires Numbered(es, 1) && Chained(EmptyHash, es) && Grafts(es, list)
    ensures Numbered(Target(es, list), 1) && Chained(EmptyHash, Target(es, list))
  {
    if list != [] {
      var t := Target(es, list);
      var b := list[0].opnum - 1;
      forall i | 0 <= i < |t|
        ensures ChainedAt(EmptyHash, t, i)
      {
        if i < b {
          assert ChainedAt(EmptyHash, es, i);
        } else if i > b {
          assert LinkedAt(list, i - b);
        }
      }
    }
  }

  /** Chained logs that agree on hashes agree on request numbers. */
  lemma SameHashesCongruent(es: seq<Entry>, fs: seq<Entry>)
    requires Numbered(es, 1) && Numbered(fs, 1) && Chained(EmptyHash, es) && Chained(EmptyHash, fs)
    requires |es| == |fs| && forall i :: 0 <= i < |es| ==> es[i].hash == fs[i].hash
    ensures Congruent(es, fs)
  {
    forall i | 0 <= i < |es|
      ensures Id(es[i].request) == Id(fs[i].request)
    {
      assert ChainedAt(EmptyHash, es, i) && ChainedAt(EmptyHash, fs, i);
    }
  }

  predicate SameHashes(es: seq<Entry>, fs: seq<Entry>) {
    |es| == |fs| && forall i :: 0 <= i < |es| ==> es[i].hash == fs[i].hash
  }

  /**
   * `out` is `t` hash for hash; the entries shared with the old log are the old ones, the others are
   * those of `t`.
   */
  predicate Installed(es: seq<Entry>, t: seq<Entry>, out: seq<Entry>) {
    && SameHashes(out, t)
    && forall i :: 0 <= i < |out| ==> SameOp(out[i], if i < Common(es, t, 0) then es[i] else t[i])
  }

  lemma {:induction false} LastCommittedBound(list: seq<Entry>)
    requires list != [] ==> Numbered(list, list[0].opnum)
    ensures list != [] ==> LastCommittedIn(list) <= list[|list| - 1].opnum
    ensures list == [] ==> LastCommittedIn(list) == 0
  {
    if list != [] && list[|list| - 1].state == Speculative {
      LastCommittedBound(list[..|list| - 1]);
    }
  }

  lemma TargetStatus(es: seq<Entry>, fs: seq<Entry>, list: seq<Entry>)
    requires SameButStatus(fs, es) && Grafts(es, list) && Grafts(fs, list)
    ensures SameHashes(Target(fs, list), Target(es, list))
    ensures Congruent(Target(es, list), Target(fs, list))
    ensures forall i :: 0 <= i < |Target(es, list)| ==> SameOp(Target(es, list)[i], Target(fs, list)[i])
  {
  }

  lemma {:induction false} CommonSameHashes(es: seq<Entry>, fs: seq<Entry>, t: seq<Entry>, u: seq<Entry>, from: nat)
    requires SameHashes(es, fs) && SameHashes(t, u) && from <= |es| && from <= |t|
    ensures Common(es, t, from) == Common(fs, u, from)
    decreases |es| - from
  {
    if from < |es| && from < |t| {
      CommonSameHashes(es, fs, t, u, from + 1);
    }
  }

  /** What is kept plus what is appended is the installed log. */
  lemma InstalledHere(es: seq<Entry>, t: seq<Entry>, out: seq<Entry>)
    requires SameHashes(out, t)
    requires es[..Common(es, t, 0)] <= out
    requires forall i :: Common(es, t, 0) <= i < |out| ==> SameOp(out[i], t[i])
    ensures Installed(es, t, out)
  {
    forall i | 0 <= i < Common(es, t, 0)
      ensures SameOp(out[i], es[i])
    {
      assert out[i] == es[..Common(es, t, 0)][i];
    }
  }

  lemma InstalledStatus(es0: seq<Entry>, es: seq<Entry>, t0: seq<Entry>, t: seq<Entry>, out: seq<Entry>)
    requires SameButStatus(es, es0) && SameHashes(t, t0) && Installed(es, t, out)
    requires forall i :: 0 <= i < |t0| ==> SameOp(t0[i], t[i])
    ensures Installed(es0, t0, out)
  {
    CommonSameHashes(es0, es, t0, t, 0);
  }

  lemma InstalledAfterCommit(es: seq<Entry>, t: seq<Entry>, out: seq<Entry>, out': seq<Entry>)
    requires Installed(es, t, out) && SameButStatus(out', out)
    ensures Installed(es, t, out')
  {
  }

  /**
   * What the code asserts of a list it installs: it continues the log, agrees with what is committed, brings no
   * number below a client's newest one, and what it replaces carried new numbers.
   */
  predicate Installable(es: seq<Entry>, list: seq<Entry>, committed: nat) {
    && committed <= |es| && Grafts(es, list) && AgreesWithCommitted(es, list, committed)
    && Accepted(Target(es, list)) && FreshFrom(es, Common(es, Target(es, list), 0))
  }

  /** Only statuses have changed. */
  lemma StillInstallable(es: seq<Entry>, fs: seq<Entry>, list: seq<Entry>, committed: nat, committed': nat)
    requires SameButStatus(fs, es) && Installable(es, list, committed)
    requires committed' <= |fs| && Grafts(fs, list) && AgreesWithCommitted(fs, list, committed')
    ensures Installable(fs, list, committed')
  {
    var t, u := Target(es, list), Target(fs, list);
    TargetStatus(es, fs, list);
    AcceptedCongruent(t, u);
    CommonSameHashes(es, fs, t, u, 0);
    FreshCongruent(es, fs, Common(es, t, 0));
  }

  /** `list` is the end of the leader's complete log. */
  ghost predicate SenderLog(sender: seq<Entry>, list: seq<Entry>) {
    && Numbered(sender, 1) && Chained(EmptyHash, sender) && Accepted(sender)
    && (list == [] ==> sender == [])
    && (list != [] ==> 1 <= list[0].opnum <= |sender| && list == sender[list[0].opnum - 1..])
  }

  /** The leader's log holds everything the replica has committed. */
  predicate HasCommitted(es: seq<Entry>, committed: nat, sender: seq<Entry>)
    requires committed <= |es|
  {
    committed <= |sender| && forall i :: 0 <= i < committed ==> sender[i].hash == es[i].hash
  }

  /** The list connects: it starts within the committed prefix or at an operation both logs share. */
  predicate Connects(es: seq<Entry>, committed: nat, list: seq<Entry>) {
    list != [] && list[0].opnum > committed + 1 ==>
      list[0].opnum <= |es| && list[0].hash == es[list[0].opnum - 1].hash
  }

  /** Before a shared operation the logs are equal. */
  lemma SharedPrefix(es: seq<Entry>, sender: seq<Entry>, k: nat)
    requires Chained(EmptyHash, es) && Chained(EmptyHash, sender)
    requires k < |es| && k < |sender| && es[k].hash == sender[k].hash
    ensures forall i :: 0 <= i <= k ==> es[i].hash == sender[i].hash
  {
    ChainedSuffixLinked(EmptyHash, es, 0);
    ChainedSuffixLinked(EmptyHash, sender, 0);
    assert es[0..] == es && sender[0..] == sender;
    forall i | 0 <= i <= k
      ensures es[i].hash == sender[i].hash
    {
      HashFixesHistory(es, sender, k, k, k - i);
    }
  }

  /** A list that connects can be installed, and aims for the leader's log. */
  lemma SenderGrafts(es: seq<Entry>, committed: nat, sender: seq<Entry>, list: seq<Entry>)
    requires Numbered(es, 1) && Chained(EmptyHash, es) && committed <= |es|
    requires SenderLog(sender, list) && HasCommitted(es, committed, sender) && Connects(es, committed, list)
    ensures Grafts(es, list) && SameHashes(Target(es, list), sender)
    ensures AgreesWithCommitted(es, list, committed) && Accepted(Target(es, list))
  {
    if list != [] {
      var b := list[0].opnum - 1;
      if b > committed {
        SharedPrefix(es, sender, b);
      }
      ChainedSuffixLinked(EmptyHash, sender, b);
      assert ChainedAt(EmptyHash, sender, b);
      assert Grafts(es, list);
      TargetChained(es, list);
      SameHashesCongruent(sender, Target(es, list));
      AcceptedCongruent(sender, Target(es, list));
    }
  }

  lemma InstalledSender(es: seq<Entry>, t: seq<Entry>, out: seq<Entry>, out': seq<Entry>, sender: seq<Entry>)
    requires Installed(es, t, out) && SameHashes(t, sender) && SameButStatus(out', out)
    ensures |out| == |sender| && SameHashes(out', sender)
  {
  }

  lemma SenderInstallable(es: seq<Entry>, committed: nat, sender: seq<Entry>, list: seq<Entry>)
    requires Numbered(es, 1) && Chained(EmptyHash, es) && committed <= |es|
    requires SenderLog(sender, list) && HasCommitted(es, committed, sender) && Connects(es, committed, list)
    requires FreshFrom(es, Common(es, sender, 0))
    ensures Installable(es, list, committed) && SameHashes(Target(es, list), sender)
  {
    SenderGrafts(es, committed, sender, list);
    CommonSameHashes(es, es, Target(es, list), sender, 0);
  }

  /** The next entry of the target is accepted, and appending it yields the target's hash. */
  lemma NextInstallable(es: seq<Entry>, t: seq<Entry>, table: Table)
    requires Numbered(es, 1) && Chained(EmptyHash, es) && SameTable(table, Replay(es))
    requires Numbered(t, 1) && Chained(EmptyHash, t) && Accepted(t)
    requires |es| < |t| && forall i :: 0 <= i < |es| ==> es[i].hash == t[i].hash
    ensures Accepts(table, t[|es|])
    ensures ComputeHash(HashUpTo(EmptyHash, es, |es|), t[|es|].request) == t[|es|].hash
  {
    var n := |es|;
    ChainedPrefix(EmptyHash, t, n);
    SameHashesCongruent(es, t[..n]);
    ReplayCongruent(es, t[..n]);
    assert AcceptedAt(t, n) && ChainedAt(EmptyHash, t, n);
    assert Get(table, t[n].request.clientid) == Get(Replay(es), t[n].request.clientid);
  }

  /** Scans from operation `from` to the first one, if any up to `limit`, where log and target differ. */
  method FirstMismatch(es: seq<Entry>, t: seq<Entry>, from: nat, limit: nat) returns (op: nat)
    requires 1 <= from && limit <= |t|
    ensures from <= op <= Max(from, Min(limit, |es|) + 1)
    ensures forall i :: from - 1 <= i < op - 1 ==> es[i].hash == t[i].hash
    ensures op <= limit && op <= |es| ==> es[op - 1].hash != t[op - 1].hash
  {
    op := from;
    while op <= limit && op <= |es| && es[op - 1].hash == t[op - 1].hash
      invariant from <= op <= Max(from, Min(limit, |es|) + 1)
      invariant forall i :: from - 1 <= i < op - 1 ==> es[i].hash == t[i].hash
    {
      op := op + 1;
    }
  }

  class Replica {
    const log: Log
    var normal: bool
    var view: nat
    var lastSpeculative: nat
    var lastCommitted: nat
    var clientTable: Table

    ghost predicate Valid()
      reads this, log
    {
      && log.Valid() && log.useHash && log.start == 1 && log.initialHash == EmptyHash
      && |log.entries| == lastSpeculative
      && lastCommitted <= lastSpeculative
      && StatusUpTo(log.entries, lastCommitted)
      && Accepted(log.entries) && Remembers(log.entries)
      && SameTable(clientTable, Replay(log.entries))
    }

    constructor ()
      ensures Valid() && fresh(log) && log.entries == [] && lastCommitted == 0 && view == 0
    {
      log := new Log(true, 1, EmptyHash);
      normal, view, lastSpeculative, lastCommitted, clientTable := true, 0, 0, 0, map[];
    }

    method CommitUpTo(upto: nat)
      requires Valid() && upto <= lastSpeculative
      modifies this`lastCommitted, log
      ensures Valid()
      ensures lastCommitted == Max(old(lastCommitted), upto)
      ensures SameButStatus(log.entries, old(log.entries))
    {
      while lastCommitted < upto
        invariant old(lastCommitted) <= lastCommitted <= Max(old(lastCommitted), upto)
        invariant Valid()
        invariant SameButStatus(log.entries, old(log.entries))
      {
        ghost var before := log.entries;
        lastCommitted := lastCommitted + 1;
        var success := log.SetStatus(lastCommitted, Committed);
        StatusKeepsOrder(before, log.entries);
      }
    }

    /** Undoes the speculative entries after `backto`, newest first, in the client table and the log. */
    method RollbackTo(backto: nat)
      requires Valid()
      requires backto < lastSpeculative ==> backto >= lastCommitted
      requires FreshFrom(log.entries, backto)
      modifies this`clientTable, this`lastSpeculative, log
      ensures Valid()
      ensures log.entries == if backto < old(lastSpeculative) then old(log.entries)[..backto] else old(log.entries)
      ensures SameTable(clientTable, Replay(log.entries))
    {
      if backto >= lastSpeculative {
        return;
      }
      var i := lastSpeculative;
      assert log.entries[..i] == log.entries;
      while i > backto
        invariant backto <= i <= lastSpeculative
        invariant log.entries == old(log.entries) && lastSpeculative == old(lastSpeculative)
        invariant SameTable(clientTable, Replay(log.entries[..i]))
      {
        assert FreshAt(log.entries, i - 1);
        UndoAt(log.entries, i, clientTable);
        var entry := log.Find(i).value;
        var cte := Get(clientTable, entry.request.clientid);
        assert cte.lastReqOpnum == entry.opnum;
        if entry.prevClientReqOpnum > 0 {
          var oldEntry := log.Find(entry.prevClientReqOpnum).value;
          cte := ClientEntry(oldEntry.request.clientreqid, entry.prevClientReqOpnum);
        } else {
          cte := ClientEntry(0, 0);
        }
        clientTable := clientTable[entry.request.clientid := cte];
        i := i - 1;
      }
      AcceptedPrefix(log.entries, backto);
      RemembersPrefix(log.entries, backto);
      log.RemoveAfter(backto + 1);
      lastSpeculative := backto;
    }

    /** Appends a request as the next speculative operation and records it in the client table. */
    method Speculate(v: nat, req: Request)
      requires Valid()
      requires Get(clientTable, req.clientid).lastReqId <= req.clientreqid
      modifies this`lastSpeculative, this`clientTable, log
      ensures Valid()
      ensures |log.entries| == |old(log.entries)| + 1 && old(log.entries) <= log.entries
      ensures var e := log.entries[|old(log.entries)|];
              && e.view == v && e.request == req
              && e.hash == ComputeHash(HashUpTo(EmptyHash, old(log.entries), |old(log.entries)|), req)
      ensures SameTable(clientTable, Record(old(clientTable), log.entries[|old(log.entries)|]))
      ensures req.clientid in clientTable && clientTable[req.clientid].lastReqId == req.clientreqid
    {
      var known := Get(clientTable, req.clientid);
      ghost var before := log.entries;
      assert known == Get(Replay(before), req.clientid);
      lastSpeculative := lastSpeculative + 1;
      log.Append(Entry(v, lastSpeculative, Speculative, req, EmptyHash, known.lastReqOpnum));
      ghost var e := log.entries[|before|];
      AppendInOrder(before, e);
      clientTable := clientTable[req.clientid := known];
      if known.lastReqId != req.clientreqid {
        clientTable := clientTable[req.clientid := ClientEntry(req.clientreqid, lastSpeculative)];
      }
      forall c
        ensures Get(clientTable, c) == Get(Record(Replay(before), e), c)
      {
        assert Get(old(clientTable), c) == Get(Replay(before), c);
      }
    }

    /**
     * A request is new when its number is above the client's newest. Clients number their requests from 1; number 0
     * is taken for new from a client never heard of, and stops the replica when it comes again.
     */
    method HandleRequest(req: Request) returns (outcome: RequestOutcome)
      requires Valid()
      modifies this`lastSpeculative, this`clientTable, log
      ensures Valid()
      ensures var newest, known := old(Get(clientTable, req.clientid)).lastReqId, req.clientid in old(clientTable);
              && (outcome.Executed? <==>
                    normal && (newest < req.clientreqid || (req.clientreqid == 0 && !known)))
              && (outcome.Duplicate? <==> newest == req.clientreqid >= 1)
              && (outcome.Failed? <==> newest == req.clientreqid == 0 && known)
              && (outcome.Stale? <==> newest > req.clientreqid)
      ensures outcome.Duplicate? ==> outcome.reply in log.entries && Id(outcome.reply.request) == Id(req)
      ensures outcome.Executed? ==>
                && old(log.entries) < log.entries && log.entries[old(lastSpeculative)].request == req
                && req.clientid in clientTable && clientTable[req.clientid].lastReqId == req.clientreqid
      ensures !outcome.Executed? ==> log.entries == old(log.entries) && clientTable == old(clientTable)
    {
      if req.clientid in clientTable {
        var known := clientTable[req.clientid];
        if req.clientreqid < known.lastReqId {
          return Stale;
        }
        if req.clientreqid == known.lastReqId {
          ReplayInLog(log.entries, req.clientid);
          EntryAboveZero(log.entries, req.clientid);
          assert Get(clientTable, req.clientid) == Get(Replay(log.entries), req.clientid);
          var le := log.Find(known.lastReqOpnum);
          if le == None {
            return Failed;
          }
          return Duplicate(le.value);
        }
      }
      if !normal {
        return Deferred;
      }
      Speculate(view, req);
      outcome := Executed;
    }

    // Installing a merged log.

    method FindLastCommitted(list: seq<Entry>) returns (k: nat)
      ensures k == LastCommittedIn(list)
    {
      var i := |list|;
      assert list[..i] == list;
      while i > 0 && list[i - 1].state == Speculative
        invariant 0 <= i <= |list|
        invariant LastCommittedIn(list) == LastCommittedIn(list[..i])
      {
        assert list[..i][..i - 1] == list[..i - 1];
        i := i - 1;
      }
      k := if i > 0 then list[i - 1].opnum else 0;
    }

    /** Commits the operations, up to `upto`, that the log and the list share. */
    method CommitShared(list: seq<Entry>, upto: nat)
      requires Valid() && Grafts(log.entries, list)
      requires AgreesWithCommitted(log.entries, list, lastCommitted)
      requires lastCommitted <= upto <= |Target(log.entries, list)|
      modifies this`lastCommitted, log
      ensures Valid()
      ensures old(lastCommitted) <= lastCommitted <= upto
      ensures SameButStatus(log.entries, old(log.entries))
      ensures Grafts(log.entries, list)
      ensures AgreesWithCommitted(log.entries, list, lastCommitted)
    {
      var entriesStart := if list == [] then 0 else list[0].opnum;
      TargetStart(log.entries, list, lastCommitted);
      var toCommit := FirstMismatch(log.entries, Target(log.entries, list), Max(lastCommitted + 1, entriesStart), upto);
      if toCommit > entriesStart {
        CommitUpTo(toCommit - 1);
      }
    }

    /** The first operation, from the commit point on, where log and list part. */
    method FindDiverging(list: seq<Entry>) returns (firstDiverging: nat)
      requires Valid() && Grafts(log.entries, list)
      requires AgreesWithCommitted(log.entries, list, lastCommitted)
      ensures firstDiverging == Common(log.entries, Target(log.entries, list), 0) + 1
      ensures firstDiverging > lastCommitted && (list != [] ==> firstDiverging >= list[0].opnum)
    {
      var entriesStart := if list == [] then 0 else list[0].opnum;
      var t := Target(log.entries, list);
      TargetStart(log.entries, list, lastCommitted);
      firstDiverging := FirstMismatch(log.entries, t, Max(lastCommitted + 1, entriesStart), |t|);
      CommonSkip(log.entries, t, 0, firstDiverging - 1);
    }

    /** Executes the rest of the list as new speculative operations. */
    method InstallRest(list: seq<Entry>, ghost t: seq<Entry>)
      requires Valid() && list != [] && Numbered(list, list[0].opnum)
      requires 1 <= list[0].opnum <= lastSpeculative + 1
      requires Numbered(t, 1) && Chained(EmptyHash, t) && Accepted(t)
      requires |t| == list[0].opnum - 1 + |list| && t[list[0].opnum - 1..] == list
      requires lastSpeculative <= |t|
      requires forall i :: 0 <= i < lastSpeculative ==> log.entries[i].hash == t[i].hash
      modifies this`lastSpeculative, this`clientTable, log
      ensures Valid() && |log.entries| == |t| && old(log.entries) <= log.entries
      ensures forall i :: 0 <= i < |t| ==> log.entries[i].hash == t[i].hash
      ensures forall i :: |old(log.entries)| <= i < |t| ==> SameOp(log.entries[i], t[i])
    {
      ghost var kept := |log.entries|;
      var entriesStart := list[0].opnum;
      while lastSpeculative < entriesStart + |list| - 1
        invariant kept <= lastSpeculative <= |t|
        invariant Valid() && old(log.entries) <= log.entries
        invariant forall i :: 0 <= i < lastSpeculative ==> log.entries[i].hash == t[i].hash
        invariant forall i :: kept <= i < lastSpeculative ==> SameOp(log.entries[i], t[i])
        decreases |t| - lastSpeculative
      {
        var newEntry := list[lastSpeculative + 1 - entriesStart];
        ghost var n := lastSpeculative;
        assert newEntry == t[n];
        NextInstallable(log.entries, t, clientTable);
        Speculate(newEntry.view, newEntry.request);
      }
    }

    /** Rolls back to where log and list part and executes the rest of the list. */
    method ReplaceTail(list: seq<Entry>)
      requires Valid() && Installable(log.entries, list, lastCommitted)
      modifies this`lastSpeculative, this`clientTable, log
      ensures Valid()
      ensures Installed(old(log.entries), Target(old(log.entries), list), log.entries)
    {
      ghost var es, t := log.entries, Target(log.entries, list);
      TargetChained(es, list);
      var firstDiverging := FindDiverging(list);
      RollbackTo(firstDiverging - 1);
      assert log.entries == es[..firstDiverging - 1];
      if list != [] {
        InstallRest(list, t);
      }
      InstalledHere(es, t, log.entries);
    }

    /**
     * Replaces the log by the merged one. What log and list share stays, what differs is rolled back,
     * the rest of the list is executed, and the commit point never moves back.
     */
    method InstallLog(list: seq<Entry>)
      requires Valid() && Installable(log.entries, list, lastCommitted)
      modifies this`lastSpeculative, this`lastCommitted, this`clientTable, log
      ensures Valid()
      ensures lastSpeculative == if list == [] then 0 else list[|list| - 1].opnum
      ensures lastCommitted == Max(old(lastCommitted), LastCommittedIn(list))
      ensures Installed(old(log.entries), Target(old(log.entries), list), log.entries)
    {
      ghost var before, t0 := log.entries, Target(log.entries, list);
      LastCommittedBound(list);
      var newLastCommitted := FindLastCommitted(list);
      if newLastCommitted < lastCommitted {
        newLastCommitted := lastCommitted;
      }
      CommitShared(list, newLastCommitted);
      ghost var es, t := log.entries, Target(log.entries, list);
      TargetStatus(before, es, list);
      StillInstallable(before, es, list, old(lastCommitted), lastCommitted);
      ReplaceTail(list);
      InstalledStatus(before, es, t0, t, log.entries);
      ghost var done := log.entries;
      CommitUpTo(newLastCommitted);
      InstalledAfterCommit(before, t0, done, log.entries);
    }

    /** Installs the end of the leader's log, which connects, and commits as far as the leader did. */
    method TakeOver(list: seq<Entry>, lastcommitted: nat, ghost sender: seq<Entry>)
      requires Valid() && Installable(log.entries, list, lastCommitted)
      requires SameHashes(Target(log.entries, list), sender) && lastcommitted <= |sender|
      modifies this`lastSpeculative, this`lastCommitted, this`clientTable, log
      ensures Valid() && SameHashes(log.entries, sender)
      ensures lastCommitted == Max(Max(old(lastCommitted), LastCommittedIn(list)), lastcommitted)
    {
      ghost var es, t := log.entries, Target(log.entries, list);
      InstallLog(list);
      ghost var out := log.entries;
      InstalledSender(es, t, out, out, sender);
      CommitUpTo(lastcommitted);
      InstalledSender(es, t, out, log.entries, sender);
    }

    /**
     * Takes over the log of the new view's leader, of which `list` is the end, unless the list starts
     * too late to connect it; then nothing changes and a longer list is asked for.
     */
    method HandleStartView(list: seq<Entry>, lastcommitted: nat, ghost sender: seq<Entry>) returns (installed: bool)
      requires Valid() && SenderLog(sender, list) && lastcommitted <= |sender|
      requires HasCommitted(log.entries, lastCommitted, sender)
      requires FreshFrom(log.entries, Common(log.entries, sender, 0))
      modifies this`lastSpeculative, this`lastCommitted, this`clientTable, log
      ensures Valid()
      ensures !installed <==>
                list != [] && list[0].opnum > old(lastCommitted) + 1 &&
                (list[0].opnum > old(lastSpeculative) ||
                 list[0].hash != old(log.entries)[list[0].opnum - 1].hash)
      ensures !installed ==> log.entries == old(log.entries) && lastCommitted == old(lastCommitted)
      ensures installed ==>
                && SameHashes(log.entries, sender)
                && lastCommitted == Max(Max(old(lastCommitted), LastCommittedIn(list)), lastcommitted)
    {
      if list != [] && list[0].opnum > lastCommitted + 1 {
        if list[0].opnum > lastSpeculative || list[0].hash != log.Find(list[0].opnum).value.hash {
          return false;
        }
      }
      SenderInstallable(log.entries, lastCommitted, sender, list);
      TakeOver(list, lastcommitted, sender);
      installed := true;
    }
  }
}

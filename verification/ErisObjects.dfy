/**
 * The failure coordinator and the server as objects, with the loops of the code; each handler computes
 * what the protocol prescribes.
 */
module ErisObjects {
  import opened Quorums
  import opened Logs
  import opened Eris
  import opened ErisSafety

  predicate OneView(ps: set<Promise>) {
    && (forall p, q :: p in ps && q in ps ==> p.view == q.view)
    && (forall p, q :: p in ps && q in ps && p.replica == q.replica ==> p == q)
  }

  lemma RenewedOneView(ps: set<Promise>, p: Promise)
    requires OneView(ps)
    ensures OneView(Renewed(ps, p))
  {
  }

  /** The scan over the promises of a shard, in any order. */
  method Renew(ps: set<Promise>, p: Promise) returns (ps': set<Promise>)
    requires OneView(ps)
    ensures ps' == Renewed(ps, p)
  {
    ps' := ps;
    var todo := ps;
    while todo != {}
      invariant todo <= ps' <= ps
      invariant forall q :: q in ps && q !in todo ==> q.view < p.view || (q.view == p.view && q.replica != p.replica)
      invariant forall q :: q in ps' - todo ==> q.view == p.view
      invariant forall q :: q in ps && q.view == p.view ==> q in ps'
      decreases todo
    {
      var q :| q in todo;
      todo := todo - {q};
      if q.view < p.view {
        ps' := ps' - {q};
      } else if q.view > p.view {
        assert ps' == ps;
        return;
      } else if q.replica == p.replica {
        ps' := ps' - {q};
        break;
      }
    }
    ps' := ps' + {p};
  }

  lemma OpenNext(results: map<Stamp, Fate>, stamps: seq<Stamp>, i: nat)
    requires i < |stamps|
    ensures Open(results, stamps[..i + 1]) ==
              Open(results, stamps[..i]) + if stamps[i] in results then {} else {stamps[i]}
  {
  }

  lemma DecideOne(results: map<Stamp, Fate>, fate: Fate, open: set<Stamp>, s: Stamp)
    ensures (results + FatesFor(open, fate))[s := fate] == results + FatesFor(open + {s}, fate)
    ensures MessagesFor(fate, open) + {ResultFor(fate, s)} == MessagesFor(fate, open + {s})
  {
  }

  class FailureCoordinator {
    const c: Config
    const shards: nat
    var results: map<Stamp, Fate>
    var records: map<Stamp, map<nat, set<Promise>>>

    function State(): Coordinator
      reads this
    {
      Coordinator(results, records)
    }

    ghost predicate Valid()
      reads this
    {
      ValidConfig(c) && forall s, shard :: s in records && shard in records[s] ==> OneView(records[s][shard])
    }

    constructor (c: Config, shards: nat)
      requires ValidConfig(c)
      ensures Valid() && State() == Coordinator(map[], map[]) && this.c == c && this.shards == shards
    {
      this.c, this.shards, results, records := c, shards, map[], map[];
    }

    method OnTxnReceived(t: Txn) returns (out: set<Message>)
      requires Valid()
      modifies this
      ensures Valid() && (State(), out) == HandleTxnReceived(old(State()), t)
    {
      ghost var k := State();
      var drop := false;
      for i := 0 to |t.stamps|
        invariant !drop && forall j :: 0 <= j < i ==> !(t.stamps[j] in results && results[t.stamps[j]] == Dropped)
      {
        if t.stamps[i] in results && results[t.stamps[i]] == Dropped {
          drop := true;
          break;
        }
      }
      assert drop <==> SomeDropped(k, t);
      var fate := if drop then Dropped else Found(t);
      ClearRecords(t);
      out := CommitResults(t, fate);
    }

    /** The second loop forgets the promises about the transaction. */
    method ClearRecords(t: Txn)
      requires Valid()
      modifies this`records
      ensures Valid() && records == old(records) - StampsOf(t)
    {
      for i := 0 to |t.stamps|
        invariant Valid() && records == old(records) - (set s | s in t.stamps[..i])
      {
        assert t.stamps[..i + 1] == t.stamps[..i] + [t.stamps[i]];
        records := records - {t.stamps[i]};
      }
      assert t.stamps[..|t.stamps|] == t.stamps;
    }

    /** The third loop decides the stamps that are still open. */
    method CommitResults(t: Txn, fate: Fate) returns (out: set<Message>)
      modifies this`results
      ensures results == old(results) + FatesFor(Open(old(results), t.stamps), fate)
      ensures out == MessagesFor(fate, Open(old(results), t.stamps))
    {
      out := {};
      for i := 0 to |t.stamps|
        invariant results == old(results) + FatesFor(Open(old(results), t.stamps[..i]), fate)
        invariant out == MessagesFor(fate, Open(old(results), t.stamps[..i]))
      {
        var s := t.stamps[i];
        OpenNext(old(results), t.stamps, i);
        ghost var open := Open(old(results), t.stamps[..i]);
        if s !in results {
          DecideOne(old(results), fate, open, s);
          results := results[s := fate];
          out := out + {ResultFor(fate, s)};
        } else if s !in old(results) {
          assert open + {s} == open;
        } else {
          assert open + {} == open;
        }
      }
      assert t.stamps[..|t.stamps|] == t.stamps;
    }

    method RecordPromise(s: Stamp, shard: nat, p: Promise)
      requires Valid()
      modifies this`records
      ensures Valid() && State() == AddDropRecord(old(State()), s, shard, p)
    {
      var byShard: map<nat, set<Promise>> := if s in records then records[s] else map[];
      var before := if shard in byShard then byShard[shard] else {};
      var after := Renew(before, p);
      RenewedOneView(before, p);
      records := records[s := byShard[shard := after]];
    }

    /** Whether every shard has promised, shard by shard. */
    method Promised(s: Stamp) returns (dropped: bool)
      requires Valid()
      ensures dropped <==> IsDropped(c, shards, State(), s)
    {
      if s !in records {
        return false;
      }
      for shard := 0 to shards
        invariant forall x :: 0 <= x < shard ==> x in records[s] && EnoughPromises(c, records[s][x])
      {
        if shard !in records[s] {
          return false;
        }
        if |records[s][shard]| < QuorumSize(c) {
          return false;
        }
        var fromLeader := HasLeader(records[s][shard]);
        if !fromLeader {
          return false;
        }
      }
      return true;
    }

    method HasLeader(ps: set<Promise>) returns (found: bool)
      requires ValidConfig(c)
      ensures found <==> exists p :: p in ps && p.replica == LeaderIndex(c, p.view)
    {
      var todo := ps;
      while todo != {}
        invariant todo <= ps && forall p :: p in ps && p !in todo ==> p.replica != LeaderIndex(c, p.view)
        decreases todo
      {
        var p :| p in todo;
        if p.replica == LeaderIndex(c, p.view) {
          return true;
        }
        todo := todo - {p};
      }
      return false;
    }

    method OnTempDropped(s: Stamp, shard: nat, p: Promise) returns (out: set<Message>)
      requires Valid()
      modifies this
      ensures Valid() && (State(), out) == HandleTempDropped(c, shards, old(State()), s, shard, p)
    {
      out := {};
      if s in results {
        return;
      }
      RecordPromise(s, shard, p);
      var dropped := Promised(s);
      if dropped {
        results := results[s := Dropped];
        out := {DropTxn(s)};
      }
    }
  }

  /** A stamp names one transaction, and a transaction has one stamp per shard. */
  ghost predicate Stamped(issued: set<Txn>) {
    && (forall t, t', s :: t in issued && t' in issued && s in t.stamps && s in t'.stamps ==> t == t')
    && (forall t, s, s' :: t in issued && s in t.stamps && s' in t.stamps && s.shard == s'.shard ==> s == s')
  }

  function Members(stamps: seq<Stamp>): set<Stamp> {
    set s | s in stamps
  }

  function EntriesFor(stamps: seq<Stamp>, n: nat): map<Stamp, nat> {
    map s | s in stamps :: n
  }

  /** Operation n is a processed transaction that carries the stamp. */
  predicate Carries(log: seq<Outcome>, n: nat, s: Stamp) {
    1 <= n <= |log| && log[n - 1].Processed? && s in log[n - 1].txn.stamps
  }

  /** The index names exactly the stamps of the processed transactions, each with its operation. */
  ghost predicate Indexed(log: seq<Outcome>, lookup: map<Stamp, nat>) {
    && (forall s :: s in lookup ==> Carries(log, lookup[s], s))
    && (forall n: nat, s :: Carries(log, n, s) ==> s in lookup && lookup[s] == n)
  }

  /** What is processed was issued, under its own stamp. */
  ghost predicate Issues(issued: set<Txn>, shard: nat, log: seq<Outcome>, unMsgs: map<Stamp, Txn>) {
    && Stamped(issued)
    && (forall m :: 0 <= m < |log| && log[m].Processed? ==>
          log[m].txn in issued && Stamp(shard, m + 1) in log[m].txn.stamps)
    && (forall s :: s in unMsgs ==> unMsgs[s] in issued && s in unMsgs[s].stamps && s.shard == shard)
  }

  class ErisServer {
    const shard: nat
    const replica: nat
    /** The transactions of the epoch, as the sequencer stamped them. */
    ghost const issued: set<Txn>
    var view: nat
    var temp: set<Stamp>
    var perm: set<Stamp>
    var un: set<Stamp>
    var unMsgs: map<Stamp, Txn>
    var log: seq<Outcome>
    var lookup: map<Stamp, nat>

    function State(): Server
      reads this
    {
      Server(shard, replica, view, temp, perm, un, unMsgs, log)
    }

    ghost predicate Valid()
      reads this
    {
      Issues(issued, shard, log, unMsgs) && Indexed(log, lookup)
    }

    constructor (shard: nat, replica: nat, ghost issued: set<Txn>)
      requires Stamped(issued)
      ensures Valid() && State() == Server(shard, replica, 0, {}, {}, {}, map[], []) && this.issued == issued
    {
      this.shard, this.replica, this.issued := shard, replica, issued;
      view, temp, perm, un, unMsgs, log, lookup := 0, {}, {}, {}, map[], [], map[];
    }

    method AddTempDrop(s: Stamp)
      requires Valid()
      modifies this`temp
      ensures Valid() && State() == InstallTempDrop(old(State()), s)
    {
      if s !in perm && s !in un {
        temp := temp + {s};
      }
    }

    /** The coordinator found the transaction; none of its stamps may have been dropped. */
    method AddUnDrop(t: Txn)
      requires Valid() && t in issued && UnDropAllowed(State(), t)
      modifies this`un, this`temp, this`unMsgs
      ensures Valid() && State() == InstallUnDrop(old(State()), t)
    {
      var own: Option<Stamp> := None;
      for i := 0 to |t.stamps|
        invariant un == old(un) + (set s | s in t.stamps[..i]) && temp == old(temp) - (set s | s in t.stamps[..i])
        invariant unMsgs == old(unMsgs)
        invariant own == None ==> forall j :: 0 <= j < i ==> t.stamps[j].shard != shard
        invariant own.Some? ==> own.value in t.stamps && own.value.shard == shard
      {
        var s := t.stamps[i];
        assert t.stamps[..i + 1] == t.stamps[..i] + [s];
        assert s in StampsOf(t) && s !in perm;
        un, temp := un + {s}, temp - {s};
        if s.shard == shard {
          own := Some(s);
        }
      }
      assert t.stamps[..|t.stamps|] == t.stamps;
      assert un == old(un) + StampsOf(t) && temp == old(temp) - StampsOf(t) && own.Some?;
      unMsgs := unMsgs[own.value := t];
      OwnMsgsOne(issued, old(unMsgs), shard, own.value, t);
    }

    /** A dropped stamp: its logged transaction is skipped and leaves the index under all its stamps. */
    method AddPermDrop(s: Stamp)
      requires Valid() && PermDropAllowed(State(), s)
      modifies this`perm, this`temp, this`log, this`lookup
      ensures Valid() && State() == InstallPermDrop(old(State()), s)
    {
      assert s !in un;
      perm, temp := perm + {s}, temp - {s};
      if s.shard == shard {
        OwnEntry(issued, shard, log, unMsgs, lookup, s);
        if s in lookup {
          SkipEntry(lookup[s]);
        }
      }
    }

    method SkipEntry(n: nat)
      requires Valid() && 1 <= n <= |log| && log[n - 1].Processed?
      modifies this`log, this`lookup
      ensures Valid() && log == old(log)[n - 1 := Skipped]
    {
      SkippedIndexed(issued, shard, log, unMsgs, lookup, n);
      Forget(log[n - 1].txn.stamps);
      log := log[n - 1 := Skipped];
    }

    method Forget(stamps: seq<Stamp>)
      modifies this`lookup
      ensures lookup == old(lookup) - Members(stamps)
    {
      for i := 0 to |stamps|
        invariant lookup == old(lookup) - Members(stamps[..i])
      {
        assert stamps[..i + 1] == stamps[..i] + [stamps[i]];
        lookup := lookup - {stamps[i]};
      }
      assert stamps[..|stamps|] == stamps;
    }

    /** An index entry is never replaced. */
    method Enter(stamps: seq<Stamp>, n: nat)
      modifies this`lookup
      ensures lookup == EntriesFor(stamps, n) + old(lookup)
    {
      for i := 0 to |stamps|
        invariant lookup == EntriesFor(stamps[..i], n) + old(lookup)
      {
        assert stamps[..i + 1] == stamps[..i] + [stamps[i]];
        if stamps[i] !in lookup {
          lookup := lookup[stamps[i] := n];
        }
      }
      assert stamps[..|stamps|] == stamps;
    }

    /** Some shard misses the stamp: it is answered with the transaction or with a promise, or the server stops. */
    method OnCheck(s: Stamp) returns (ok: bool, out: set<Message>)
      requires Valid()
      modifies this`temp
      ensures Valid() && (State(), out) == HandleCheck(old(State()), s)
      ensures ok <==> s in perm || s in un || CheckAllowed(old(State()), s)
    {
      ok, out := true, {};
      if s in perm || s in un {
        return;
      }
      IndexFinds(log, lookup, s);
      if s in lookup {
        if s in temp {
          ok := false;
          return;
        }
        out := {TxnReceived(log[lookup[s] - 1].txn)};
      } else {
        out := {TempDropped(s, shard, replica, view)};
        AddTempDrop(s);
      }
    }

    /** Takes over another server's drop sets; the two sides must not contradict each other. */
    method Merge(ts: seq<Stamp>, ps: seq<Stamp>, us: seq<Txn>)
      requires Valid() && Compatible(State(), ps, us) && forall t :: t in us ==> t in issued
      modifies this`temp, this`perm, this`un, this`unMsgs, this`log, this`lookup
      ensures Valid() && State() == MergeDrops(old(State()), ts, ps, us)
    {
      for i := 0 to |ts|
        invariant Valid() && State() == MergeTemp(old(State()), ts[..i]) && un == old(un) && perm == old(perm)
      {
        assert ts[..i + 1][..i] == ts[..i];
        AddTempDrop(ts[i]);
      }
      assert ts[..|ts|] == ts;
      ghost var v1 := State();
      for i := 0 to |ps|
        invariant Valid() && State() == MergePerm(v1, ps[..i]) && un == old(un)
        invariant forall s :: s in perm ==> s in old(perm) || s in ps
      {
        assert ps[..i + 1][..i] == ps[..i];
        assert ps[i] in ps && PermDropAllowed(old(State()), ps[i]);
        AddPermDrop(ps[i]);
      }
      assert ps[..|ps|] == ps;
      ghost var v2 := State();
      for i := 0 to |us|
        invariant Valid() && State() == MergeUn(v2, us[..i]) && perm == v2.perm
      {
        assert us[..i + 1][..i] == us[..i];
        assert us[i] in us;
        MergedAllowed(us[i], State(), old(perm), ps);
        AddUnDrop(us[i]);
      }
      assert us[..|us|] == us;
    }

    method InstallLogEntry(e: Outcome)
      requires Valid() && (e.Processed? ==> e.txn in issued && NextStamp(State()) in e.txn.stamps)
      modifies this`log, this`lookup
      ensures Valid() && log == old(log) + [e]
    {
      if e.Processed? {
        FreshStamps(issued, shard, log, unMsgs, lookup, e.txn);
        Enter(e.txn.stamps, |log| + 1);
      }
      LongerIndexed(log, old(lookup), e);
      LongerIssues(issued, shard, log, unMsgs, e);
      log := log + [e];
    }

    /** Appends what comes next, or a skip where that was decided. */
    method InstallNext(e: Outcome)
      requires Valid() && (e.Processed? ==> e.txn in issued && NextStamp(State()) in e.txn.stamps)
      requires NextStamp(State()) !in temp
      modifies this`log, this`perm, this`lookup
      ensures Valid() && State() == Put(old(State()), e)
    {
      var s := Stamp(shard, |log| + 1);
      var kept := if s in perm then Skipped else e;
      InstallLogEntry(kept);
      if kept.Skipped? {
        perm := perm + {s};
      }
    }

    /** Appends what comes next, then whatever follows and is already decided. */
    method Process(e: Outcome)
      requires Valid() && (e.Processed? ==> e.txn in issued && NextStamp(State()) in e.txn.stamps)
      modifies this`log, this`perm, this`lookup
      ensures Valid() && State() == ProcessNext(old(State()), e)
      decreases Ahead(State()), NextStamp(State()) !in temp && Decided(State()) == None
    {
      ghost var v := State();
      if Stamp(shard, |log| + 1) in temp {
        return;
      }
      InstallNext(e);
      var following := Stamp(shard, |log| + 1);
      AheadShrinks(v, e);
      if following in perm {
        FollowsOn(State(), Skipped);
        Process(Skipped);
      } else if following in un && following in unMsgs {
        FollowsOn(State(), Processed(unMsgs[following]));
        Process(Processed(unMsgs[following]));
      }
    }
  }

  /** In every reachable state a server meets what its methods rely on. */
  lemma ReachableIssues(e: Epoch, s: System, i: nat)
    requires Inv(e, s) && i < |s.servers|
    ensures Issues(e.issued, s.servers[i].shard, s.servers[i].log, s.servers[i].unMsgs)
  {
    var d, v := s.coord.results, s.servers[i];
    assert ServerOk(e, d, v);
    forall m | 0 <= m < |v.log| && v.log[m].Processed?
      ensures v.log[m].txn in e.issued && Stamp(v.shard, m + 1) in v.log[m].txn.stamps
    {
      assert LogAt(e, d, v, m + 1);
    }
    forall x | x in v.unMsgs
      ensures v.unMsgs[x] in e.issued && x in v.unMsgs[x].stamps && x.shard == v.shard
    {
      assert FoundOk(e, d, x);
    }
  }

  // The index.

  lemma IndexFinds(log: seq<Outcome>, lookup: map<Stamp, nat>, s: Stamp)
    requires Indexed(log, lookup)
    ensures Eris.Lookup(log, s) == if s in lookup then Some(log[lookup[s] - 1].txn) else None
  {
    assert s in lookup ==> Carries(log, lookup[s], s) && Processed(log[lookup[s] - 1].txn) in log;
    var r := Eris.Lookup(log, s);
    if r.Some? {
      var i :| 0 <= i < |log| && log[i] == Processed(r.value);
      assert Carries(log, i + 1, s);
    }
  }

  /** Under a stamp of its own shard the index names the operation of that number. */
  lemma OwnEntry(issued: set<Txn>, shard: nat, log: seq<Outcome>, unMsgs: map<Stamp, Txn>, lookup: map<Stamp, nat>,
                 s: Stamp)
    requires Issues(issued, shard, log, unMsgs) && Indexed(log, lookup) && s.shard == shard
    ensures s in lookup ==> lookup[s] == s.msgnum
    ensures s !in lookup && 1 <= s.msgnum <= |log| ==> log[s.msgnum - 1] == Skipped
  {
    if s in lookup {
      assert Carries(log, lookup[s], s);
    } else if 1 <= s.msgnum <= |log| {
      assert !Carries(log, s.msgnum, s);
    }
  }

  /** The next transaction's stamps are new to the index. */
  lemma FreshStamps(issued: set<Txn>, shard: nat, log: seq<Outcome>, unMsgs: map<Stamp, Txn>, lookup: map<Stamp, nat>,
                    t: Txn)
    requires Issues(issued, shard, log, unMsgs) && Indexed(log, lookup) && t in issued
    requires Stamp(shard, |log| + 1) in t.stamps
    ensures forall s :: s in t.stamps ==> s !in lookup
  {
  }

  lemma LongerIssues(issued: set<Txn>, shard: nat, log: seq<Outcome>, unMsgs: map<Stamp, Txn>, e: Outcome)
    requires Issues(issued, shard, log, unMsgs)
    requires e.Processed? ==> e.txn in issued && Stamp(shard, |log| + 1) in e.txn.stamps
    ensures Issues(issued, shard, log + [e], unMsgs)
  {
  }

  lemma LongerIndexed(log: seq<Outcome>, lookup: map<Stamp, nat>, e: Outcome)
    requires Indexed(log, lookup) && (e.Processed? ==> forall s :: s in e.txn.stamps ==> s !in lookup)
    ensures Indexed(log + [e], if e.Processed? then EntriesFor(e.txn.stamps, |log| + 1) + lookup else lookup)
  {
    var l' := if e.Processed? then EntriesFor(e.txn.stamps, |log| + 1) + lookup else lookup;
    forall s | s in l'
      ensures Carries(log + [e], l'[s], s)
    {
      if s in lookup {
        assert Carries(log, lookup[s], s);
      }
    }
    forall n: nat, s | Carries(log + [e], n, s)
      ensures s in l' && l'[s] == n
    {
      if n <= |log| {
        assert Carries(log, n, s);
      }
    }
  }

  lemma SkippedIndexed(issued: set<Txn>, shard: nat, log: seq<Outcome>, unMsgs: map<Stamp, Txn>,
                       lookup: map<Stamp, nat>, n: nat)
    requires Issues(issued, shard, log, unMsgs) && Indexed(log, lookup) && 1 <= n <= |log| && log[n - 1].Processed?
    ensures Issues(issued, shard, log[n - 1 := Skipped], unMsgs)
    ensures Indexed(log[n - 1 := Skipped], lookup - Members(log[n - 1].txn.stamps))
  {
    var log', l' := log[n - 1 := Skipped], lookup - Members(log[n - 1].txn.stamps);
    forall s | s in l'
      ensures Carries(log', l'[s], s)
    {
      assert Carries(log, lookup[s], s);
    }
    forall m: nat, s | Carries(log', m, s)
      ensures s in l' && l'[s] == m
    {
      assert Carries(log, m, s);
      if s in log[n - 1].txn.stamps {
        assert Carries(log, n, s);
      }
    }
  }

  lemma OwnMsgsOne(issued: set<Txn>, m: map<Stamp, Txn>, shard: nat, s: Stamp, t: Txn)
    requires Stamped(issued) && t in issued && s in t.stamps && s.shard == shard
    ensures m[s := t] == m + OwnMsgs(shard, t)
  {
  }

  lemma MergedAllowed(t: Txn, v: Server, perm: set<Stamp>, ps: seq<Stamp>)
    requires StampsOf(t) !! perm && forall s :: s in ps ==> s !in t.stamps
    requires exists s :: s in t.stamps && s.shard == v.shard
    requires forall s :: s in v.perm ==> s in perm || s in ps
    ensures UnDropAllowed(v, t)
  {
  }

  lemma AheadShrinks(v: Server, e: Outcome)
    requires NextStamp(v) !in v.temp
    ensures Ahead(Put(v, e)) <= Ahead(v)
    ensures Decided(v).Some? ==> Ahead(Put(v, e)) < Ahead(v)
  {
    if Decided(v).Some? {
      assert NextStamp(v) in Ahead(v);
    }
  }

  /** A message decided ahead of time is processed as decided. */
  lemma FollowsOn(v: Server, e: Outcome)
    requires NextStamp(v) in v.temp || Decided(v) == Some(e)
    ensures ProcessNext(v, e) == Settle(v)
  {
  }
}

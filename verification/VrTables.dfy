/**
 * The client tables of the followers in Viewstamped Replication. When every follower enters the view with a
 * table that matches the base log, its table always matches its log, and the assertion on recording a request,
 * that its number is not below the client's newest one, holds in every run.
 */
module VrTables {
  import opened Numbers
  import opened Quorums
  import opened Logs
  import opened Vr
  import opened VrSafety
  import opened VrRuns

  /** Per client, request numbers increase along the log. */
  ghost predicate Rising(log: seq<Request>) {
    forall i: nat, j: nat :: RisesAt(log, i, j)
  }

  predicate RisesAt(log: seq<Request>, i: nat, j: nat) {
    i < j < |log| && log[i].clientid == log[j].clientid ==> log[i].clientreqid < log[j].clientreqid
  }

  predicate Covered(log: seq<Request>, t: map<nat, nat>, i: nat)
    requires i < |log|
  {
    log[i].clientid in t && log[i].clientreqid <= t[log[i].clientid]
  }

  predicate InLog(log: seq<Request>, t: map<nat, nat>, c: nat, i: nat) {
    c in t && i < |log| && log[i].clientid == c && log[i].clientreqid == t[c]
  }

  /** The table holds exactly each client's newest request of the log. */
  ghost predicate Exact(log: seq<Request>, t: map<nat, nat>) {
    && (forall i :: 0 <= i < |log| ==> Covered(log, t, i))
    && (forall c :: c in t ==> exists i: nat :: InLog(log, t, c, i))
  }

  /** The assertion of UpdateClientTable. */
  predicate NotBelow(t: map<nat, nat>, req: Request) {
    req.clientid in t ==> t[req.clientid] <= req.clientreqid
  }

  /** A new last request is above its client's entry, and recording it keeps the table exact. */
  lemma RecordNew(log: seq<Request>, t: map<nat, nat>, req: Request)
    requires Exact(log, t) && Rising(log + [req])
    ensures NotBelow(t, req) && Exact(log + [req], Record(t, req))
  {
    var log', t' := log + [req], Record(t, req);
    if req.clientid in t {
      var i: nat :| InLog(log, t, req.clientid, i);
      assert RisesAt(log', i, |log|) && log'[i] == log[i] && log'[|log|] == req;
    }
    forall i | 0 <= i < |log'|
      ensures Covered(log', t', i)
    {
      if i < |log| {
        assert Covered(log, t, i);
      }
    }
    forall c | c in t'
      ensures exists i: nat :: InLog(log', t', c, i)
    {
      if c == req.clientid {
        assert InLog(log', t', c, |log|);
      } else {
        var i: nat :| InLog(log, t, c, i);
        assert InLog(log', t', c, i);
      }
    }
  }

  /** Recording what is in the log already changes nothing. */
  lemma RecordOld(log: seq<Request>, t: map<nat, nat>, i: nat)
    requires Exact(log, t) && i < |log|
    ensures Record(t, log[i]) == t
  {
    assert Covered(log, t, i);
  }

  lemma LastNotBelow(log: seq<Request>, t: map<nat, nat>)
    requires Exact(log, t) && Rising(log) && log != []
    ensures NotBelow(t, log[|log| - 1])
  {
    var c := log[|log| - 1].clientid;
    if c in t {
      var i: nat :| InLog(log, t, c, i);
      assert RisesAt(log, i, |log| - 1);
    }
  }

  predicate FitsAt(t: map<nat, nat>, reqs: seq<Request>, j: nat)
    requires j < |reqs|
  {
    NotBelow(RecordAll(t, reqs[..j]), reqs[j])
  }

  /** The assertion holds for each of the requests, recorded one after the other. */
  predicate Fits(t: map<nat, nat>, reqs: seq<Request>) {
    forall j :: 0 <= j < |reqs| ==> FitsAt(t, reqs, j)
  }

  lemma RisingPrefix(log: seq<Request>, n: nat)
    requires Rising(log) && n <= |log|
    ensures Rising(log[..n])
  {
    forall i: nat, j: nat
      ensures RisesAt(log[..n], i, j)
    {
      assert RisesAt(log, i, j);
    }
  }

  /** Requests that continue the log. */
  lemma {:induction false} RecordMore(log: seq<Request>, t: map<nat, nat>, more: seq<Request>)
    requires Exact(log, t) && Rising(log + more)
    ensures Exact(log + more, RecordAll(t, more)) && Fits(t, more)
    decreases |more|
  {
    if more == [] {
      assert log + more == log;
    } else {
      var n := |more| - 1;
      assert (log + more)[..|log| + n] == log + more[..n];
      RisingPrefix(log + more, |log| + n);
      RecordMore(log, t, more[..n]);
      assert log + more == (log + more[..n]) + [more[n]];
      RecordNew(log + more[..n], RecordAll(t, more[..n]), more[n]);
      FitsNext(t, more);
    }
  }

  lemma FitsNext(t: map<nat, nat>, reqs: seq<Request>)
    requires reqs != [] && Fits(t, reqs[..|reqs| - 1]) && FitsAt(t, reqs, |reqs| - 1)
    ensures Fits(t, reqs)
  {
    forall j | 0 <= j < |reqs|
      ensures FitsAt(t, reqs, j)
    {
      if j < |reqs| - 1 {
        assert FitsAt(t, reqs[..|reqs| - 1], j) && reqs[..|reqs| - 1][..j] == reqs[..j];
      }
    }
  }

  /** Operations lo+1..hi of the log, all known. */
  lemma {:induction false} RecordKnown(log: seq<Request>, t: map<nat, nat>, lo: nat, hi: nat)
    requires Exact(log, t) && lo <= hi <= |log|
    ensures RecordAll(t, log[lo..hi]) == t
    decreases hi
  {
    if lo < hi {
      RecordKnown(log, t, lo, hi - 1);
      assert log[lo..hi][..hi - 1 - lo] == log[lo..hi - 1];
      RecordOld(log, t, hi - 1);
    }
  }

  lemma {:induction false} RecordConcat(t: map<nat, nat>, a: seq<Request>, b: seq<Request>)
    ensures RecordAll(t, a + b) == RecordAll(RecordAll(t, a), b)
    decreases |b|
  {
    if b == [] {
      assert a + b == a;
    } else {
      RecordConcat(t, a, b[..|b| - 1]);
      assert (a + b)[..|a + b| - 1] == a + b[..|b| - 1];
    }
  }

  /** The last operation of the log again, and then new ones. */
  lemma RecordFromLast(log: seq<Request>, t: map<nat, nat>, more: seq<Request>)
    requires log != [] && Exact(log, t) && Rising(log + more)
    ensures var reqs := [log[|log| - 1]] + more; Exact(log + more, RecordAll(t, reqs)) && Fits(t, reqs)
  {
    var last := log[|log| - 1];
    var reqs := [last] + more;
    assert (log + more)[..|log|] == log;
    RisingPrefix(log + more, |log|);
    LastNotBelow(log, t);
    RecordOld(log, t, |log| - 1);
    RecordMore(log, t, more);
    assert [last][..0] == [] && RecordAll(t, [last]) == t;
    RecordConcat(t, [last], more);
    forall j | 0 <= j < |reqs|
      ensures FitsAt(t, reqs, j)
    {
      if j > 0 {
        assert reqs[..j] == [last] + more[..j - 1];
        RecordConcat(t, [last], more[..j - 1]);
        assert FitsAt(t, more, j - 1);
      }
    }
  }

  // The followers' steps.

  /** What the leader's log says of any part of it. */
  lemma PartRising(l: seq<Request>, log: seq<Request>)
    requires Rising(l) && PartOf(l, 0, log)
    ensures Rising(log)
  {
    forall i: nat, j: nat
      ensures RisesAt(log, i, j)
    {
      assert RisesAt(l, i, j);
    }
  }

  /** A prepare is recorded without a violated assertion, and the table stays exact. */
  lemma PrepareRecords(e: Env, me: nat, r: Replica, start: nat, op: nat, reqs: seq<Request>)
    requires RepOk(e, r) && Rising(e.l) && Exact(r.log, r.table)
    requires 1 <= start <= op && |reqs| == op - start + 1 && PartOf(e.l, start - 1, reqs)
    ensures var r' := HandlePrepare(me, r, start, op, reqs).0; Exact(r'.log, r'.table)
    ensures start <= |r.log| + 1 <= op ==> Fits(r.table, reqs[|r.log| + 1 - start..])
  {
    if start <= |r.log| + 1 <= op {
      var more := reqs[|r.log| + 1 - start..];
      assert PartOf(e.l, 0, r.log + more);
      PartRising(e.l, r.log + more);
      RecordMore(r.log, r.table, more);
    }
  }

  /** Committing what was taken over: the table then matches the old log or the commit point, whichever is further. */
  lemma CommitRecords(l: seq<Request>, r: Replica, n: nat, upto: nat)
    requires Rising(l) && r.log == l && r.committed <= n <= |l| && upto <= |l| && Exact(l[..n], r.table)
    ensures Exact(l[..Max(n, upto)], CommitUpTo(r, upto).table)
  {
    var c := r.committed;
    if c < upto <= n {
      assert l[..n][c..upto] == l[c..upto];
      RecordKnown(l[..n], r.table, c, upto);
    } else if n < upto {
      assert l[..n][c..n] == l[c..n] && l[c..n] + l[n..upto] == l[c..upto] && l[..n] + l[n..upto] == l[..upto];
      RecordKnown(l[..n], r.table, c, n);
      RecordConcat(r.table, l[c..n], l[n..upto]);
      RisingPrefix(l, upto);
      RecordMore(l[..n], r.table, l[n..upto]);
    }
  }

  /** The operations of the log that are recorded when n were there before and so many are committed. */
  function Rest(l: seq<Request>, n: nat, committed: nat): seq<Request> {
    var first := FirstNew(n, committed);
    if first <= |l| then l[first - 1..] else []
  }

  /** Recording the new uncommitted operations, from the old log's last one on. */
  lemma RestRecords(l: seq<Request>, t: map<nat, nat>, n: nat, committed: nat)
    requires Rising(l) && n <= |l| && committed <= |l| && Exact(l[..Max(n, committed)], t)
    ensures Exact(l, RecordAll(t, Rest(l, n, committed))) && Fits(t, Rest(l, n, committed))
  {
    RestIs(l, n, committed);
    var m := Max(n, committed);
    var log, more := l[..m], l[m..];
    assert log + more == l;
    if n > committed {
      RecordFromLast(log, t, more);
    } else {
      RecordMore(log, t, more);
    }
  }

  lemma RestIs(l: seq<Request>, n: nat, committed: nat)
    requires n <= |l| && committed <= |l|
    ensures n > committed ==> Rest(l, n, committed) == [l[..n][n - 1]] + l[n..]
    ensures n <= committed ==> Rest(l, n, committed) == l[committed..]
  {
  }

  lemma TakeOverPart(e: Env, r: Replica, begin: nat, entries: seq<Request>)
    requires RepOk(e, r) && 1 <= begin <= r.committed + 1 && PartOf(e.l, begin - 1, entries)
    ensures var t := TakeOver(r, begin, entries);
            && PartOf(e.l, 0, t.log) && |r.log| <= |t.log| && t.log[..|r.log|] == r.log
            && t.table == r.table && t.committed == r.committed && begin - 1 + |entries| <= |t.log|
  {
  }

  lemma TransferTail(t: Replica, n: nat, committed: nat)
    requires Rising(t.log) && t.committed <= n <= |t.log| && committed <= |t.log| && Exact(t.log[..n], t.table)
    ensures var s := CommitUpTo(t, committed);
            var rest := Rest(s.log, n, s.committed);
            Exact(s.log, RecordAll(s.table, rest)) && Fits(s.table, rest)
  {
    CommitRecords(t.log, t, n, committed);
    var s := CommitUpTo(t, committed);
    assert s.log == t.log && s.committed == Max(t.committed, committed);
    assert Max(n, committed) == Max(n, s.committed);
    RestRecords(t.log, s.table, n, s.committed);
  }

  /** The same for a state transfer: the committed part first, then the rest one by one. */
  lemma TransferRecords(e: Env, me: nat, r: Replica, begin: nat, entries: seq<Request>, committed: nat)
    requires RepOk(e, r) && Rising(e.l) && Exact(r.log, r.table)
    requires 1 <= begin <= r.committed + 1 && PartOf(e.l, begin - 1, entries) && committed <= begin - 1 + |entries|
    ensures var r' := HandleStateTransfer(me, r, begin, entries, committed).0; Exact(r'.log, r'.table)
    ensures var s := CommitUpTo(TakeOver(r, begin, entries), committed);
            Fits(s.table, Rest(s.log, |r.log|, s.committed))
  {
    TakeOverPart(e, r, begin, entries);
    PartRising(e.l, TakeOver(r, begin, entries).log);
    TransferTail(TakeOver(r, begin, entries), |r.log|, committed);
  }

  // Over runs.

  ghost predicate TablesExact(v: View, s: System) {
    forall i :: 0 <= i < |s.replicas| && i != v.leader ==> Exact(s.replicas[i].log, s.replicas[i].table)
  }

  lemma LeaderRising(v: View, s: System)
    requires Inv(v, s)
    ensures Rising(EnvOf(v, s).l)
  {
  }

  lemma ReceiveRecords(v: View, s: System, i: nat, m: Message)
    requires Inv(v, s) && i < v.c.n && i != v.leader && m in s.sent && Readable(v, i, s.replicas[i], m)
    requires Exact(s.replicas[i].log, s.replicas[i].table)
    ensures var r := Receive(v, i, s.replicas[i], m).0; Exact(r.log, r.table)
  {
    var e, r := EnvOf(v, s), s.replicas[i];
    LeaderRising(v, s);
    assert RepOk(e, r) && MessageOk(e, s.replicas, m);
    match m
    case Prepare(start, op, reqs) => PrepareRecords(e, i, r, start, op, reqs);
    case Commit(op) =>
      if r.committed < op <= |r.log| {
        RecordKnown(r.log, r.table, r.committed, op);
      }
    case StateTransfer(dst, begin, entries, committed) =>
      if dst == i {
        TransferRecords(e, i, r, begin, entries, committed);
      }
    case _ =>
  }

  lemma TablesNext(v: View, s: System, s': System, step: Step)
    requires Inv(v, s) && TablesExact(v, s) && Next(v, s, s', step)
    ensures TablesExact(v, s')
  {
    if step.Deliver? && step.i != v.leader {
      ReceiveRecords(v, s, step.i, step.m);
    }
  }

  lemma {:induction false} ReachableTables(v: View, run: seq<System>, steps: seq<Step>, k: nat)
    requires Run(v, run, steps) && k < |run| && TablesExact(v, run[0])
    ensures TablesExact(v, run[k])
    decreases k
  {
    if k > 0 {
      ReachableTables(v, run, steps, k - 1);
      Reachable(v, run, steps, k - 1);
      assert NextAt(v, run, steps, k - 1);
      TablesNext(v, run[k - 1], run[k], steps[k - 1]);
    }
  }

  /** The requests a follower records on a message, one after the other, and the table it starts from. */
  function Recorded(i: nat, r: Replica, m: Message): (map<nat, nat>, seq<Request>)
    requires m.Prepare? || (m.StateTransfer? && m.dst == i)
    requires m.Prepare? ==> 1 <= m.start <= m.op && |m.reqs| == m.op - m.start + 1
    requires m.StateTransfer? ==> r.committed <= |r.log| && 1 <= m.begin <= r.committed + 1
    requires m.StateTransfer? ==> m.committed <= m.begin - 1 + |m.entries|
  {
    if m.Prepare? then
      (r.table, if m.start <= |r.log| + 1 <= m.op then m.reqs[|r.log| + 1 - m.start..] else [])
    else
      var s := CommitUpTo(TakeOver(r, m.begin, m.entries), m.committed);
      (s.table, Rest(s.log, |r.log|, s.committed))
  }

  lemma RecordedFits(e: Env, i: nat, r: Replica, m: Message)
    requires RepOk(e, r) && Rising(e.l) && Exact(r.log, r.table)
    requires m.Prepare? || (m.StateTransfer? && m.dst == i)
    requires m.Prepare? ==> 1 <= m.start <= m.op && |m.reqs| == m.op - m.start + 1 && PartOf(e.l, m.start - 1, m.reqs)
    requires m.StateTransfer? ==> 1 <= m.begin <= r.committed + 1 && m.committed <= m.begin - 1 + |m.entries|
    requires m.StateTransfer? ==> PartOf(e.l, m.begin - 1, m.entries)
    ensures var (t, reqs) := Recorded(i, r, m); Fits(t, reqs)
  {
    if m.Prepare? {
      PrepareFits(e, i, r, m);
    } else {
      TransferFits(e, i, r, m);
    }
  }

  lemma PrepareFits(e: Env, i: nat, r: Replica, m: Message)
    requires RepOk(e, r) && Rising(e.l) && Exact(r.log, r.table)
    requires m.Prepare? && 1 <= m.start <= m.op && |m.reqs| == m.op - m.start + 1 && PartOf(e.l, m.start - 1, m.reqs)
    ensures var (t, reqs) := Recorded(i, r, m); Fits(t, reqs)
  {
    if m.start <= |r.log| + 1 <= m.op {
      PrepareRecords(e, i, r, m.start, m.op, m.reqs);
      assert Recorded(i, r, m) == (r.table, m.reqs[|r.log| + 1 - m.start..]);
    } else {
      assert Recorded(i, r, m) == (r.table, []);
    }
  }

  lemma TransferFits(e: Env, i: nat, r: Replica, m: Message)
    requires RepOk(e, r) && Rising(e.l) && Exact(r.log, r.table)
    requires m.StateTransfer? && m.dst == i && 1 <= m.begin <= r.committed + 1
    requires m.committed <= m.begin - 1 + |m.entries| && PartOf(e.l, m.begin - 1, m.entries)
    ensures var (t, reqs) := Recorded(i, r, m); Fits(t, reqs)
  {
    TransferRecords(e, i, r, m.begin, m.entries, m.committed);
    var s := CommitUpTo(TakeOver(r, m.begin, m.entries), m.committed);
    assert Recorded(i, r, m) == (s.table, Rest(s.log, |r.log|, s.committed));
  }

  /**
   * With tables that match on entering the view, the assertion on recording a request holds at every follower,
   * for every message, at every time of every run.
   */
  lemma TableAssertionHolds(v: View, run: seq<System>, steps: seq<Step>, k: nat, i: nat, m: Message)
    requires Run(v, run, steps) && k < |run| && TablesExact(v, run[0])
    requires i < v.c.n && i != v.leader && m in run[k].sent && (m.Prepare? || (m.StateTransfer? && m.dst == i))
    ensures i < |run[k].replicas| && Readable(v, i, run[k].replicas[i], m)
    ensures var (t, reqs) := Recorded(i, run[k].replicas[i], m); Fits(t, reqs)
  {
    ReachableTables(v, run, steps, k);
    Reachable(v, run, steps, k);
    AlwaysReadable(v, run[k], i, m);
    LeaderRising(v, run[k]);
    var e, r := EnvOf(v, run[k]), run[k].replicas[i];
    assert RepOk(e, r) && MessageOk(e, run[k].replicas, m) && Exact(r.log, r.table);
    RecordedFits(e, i, r, m);
  }
}

/**
 * When a merged log keeps each client's requests in order. A log is in order exactly when the hash of its last
 * entry is; so the merge can be followed through the hashes alone.
 */
module SpecClientOrder {
  import opened Quorums
  import opened Logs
  import opened ClientTables
  import opened SpecMerge
  import opened SpecMergeShape

  /** In the log that a hash stands for, every client's request numbers increase, from 1 on. */
  predicate InOrder(h: Hash) {
    h.Link? ==> InOrder(h.prev) && Above(h.id, History(h.prev))
  }

  /** The number is at least 1 and above all of the same client. */
  predicate Above(id: RequestId, ids: set<RequestId>) {
    id.1 >= 1 && forall x :: x in ids && x.0 == id.0 ==> x.1 < id.1
  }

  lemma {:induction false} InOrderNoRepeats(h: Hash)
    requires InOrder(h)
    ensures NoRepeats(h)
    decreases h
  {
    if h.Link? {
      InOrderNoRepeats(h.prev);
    }
  }

  // Logs and the hashes of their entries.

  lemma {:induction false} EntryInHistory(log: seq<Entry>, p: nat, i: nat)
    requires Chained(EmptyHash, log) && p <= i < |log|
    ensures Id(log[p].request) in History(log[i].hash) && History(log[p].hash) <= History(log[i].hash)
    ensures InOrder(log[i].hash) ==> InOrder(log[p].hash)
    decreases i
  {
    assert ChainedAt(EmptyHash, log, i);
    if p < i {
      EntryInHistory(log, p, i - 1);
    }
  }

  lemma {:induction false} HistoryInLog(log: seq<Entry>, i: nat, id: RequestId) returns (p: nat)
    requires Chained(EmptyHash, log) && i < |log| && id in History(log[i].hash)
    ensures p <= i && Id(log[p].request) == id
    decreases i
  {
    assert ChainedAt(EmptyHash, log, i);
    if id == Id(log[i].request) {
      p := i;
    } else {
      p := HistoryInLog(log, i - 1, id);
    }
  }

  lemma {:induction false} LastIsHighest(log: seq<Entry>, n: nat, p: nat)
    requires Increasing(log) && p < n <= |log|
    ensures Get(Replay(log[..n]), log[p].request.clientid).lastReqId >= log[p].request.clientreqid
    decreases n
  {
    assert log[..n][..n - 1] == log[..n - 1];
    assert FreshAt(log, n - 1);
    if p < n - 1 {
      LastIsHighest(log, n - 1, p);
    }
  }

  /** The hashes of a log in which request numbers increase are in order. */
  lemma {:induction false} IncreasingInOrder(log: seq<Entry>, i: nat)
    requires Chained(EmptyHash, log) && Increasing(log) && i < |log|
    ensures InOrder(log[i].hash)
    decreases i
  {
    assert ChainedAt(EmptyHash, log, i) && FreshAt(log, i);
    if i > 0 {
      IncreasingInOrder(log, i - 1);
      forall x | x in History(log[i - 1].hash) && x.0 == log[i].request.clientid
        ensures x.1 < log[i].request.clientreqid
      {
        var p := HistoryInLog(log, i - 1, x);
        LastIsHighest(log, i, p);
      }
    }
  }

  /** And the other way round. */
  lemma InOrderIncreasing(log: seq<Entry>)
    requires Numbered(log, 1) && Chained(EmptyHash, log) && log != [] && InOrder(log[|log| - 1].hash)
    ensures Increasing(log)
  {
    forall i | 0 <= i < |log|
      ensures FreshAt(log, i)
    {
      EntryInHistory(log, i, |log| - 1);
      assert ChainedAt(EmptyHash, log, i);
      var known := Get(Replay(log[..i]), log[i].request.clientid);
      ReplayInLog(log[..i], log[i].request.clientid);
      if known.lastReqOpnum > 0 {
        EntryInHistory(log, known.lastReqOpnum - 1, i - 1);
      }
    }
  }

  lemma {:induction false} LinkedHistory(es: seq<Entry>, k: nat)
    requires Linked(es) && k < |es| && OwnHash(es[0])
    ensures History(es[k].hash) == History(es[0].hash) + Ids(es[..k + 1])
    decreases k
  {
    assert es[..k + 1] == es[..k] + [es[k]];
    IdsAppend(es[..k], es[k]);
    if k > 0 {
      assert LinkedAt(es, k);
      LinkedHistory(es, k - 1);
    } else {
      assert Id(es[0].request) in History(es[0].hash);
    }
  }

  lemma {:induction false} ReportHistory(m: DoViewChange, p: nat, q: nat)
    requires Reported(m) && Has(m, p) && p <= q <= m.lastspeculative
    ensures History(At(m, p).hash) <= History(At(m, q).hash)
    decreases q
  {
    if p < q {
      ReportHistory(m, p, q - 1);
      HeldLinked(m, q - 1, At(m, q - 1).hash, At(m, q).hash);
    }
  }

  // What the reports must say of clients.

  ghost predicate PairInOrder(m: DoViewChange, op: nat, m': DoViewChange, op': nat)
    requires Reported(m) && Reported(m')
  {
    Has(m, op) && Has(m', op') ==>
      var x, y := Id(At(m, op).request), Id(At(m', op').request);
      x.0 == y.0 && x.1 < y.1 ==> x in History(At(m', op').hash)
  }

  /** Whoever reports a request has the same client's lower-numbered reported requests before it. */
  ghost predicate ClientsInOrder(ms: seq<DoViewChange>)
    requires AllReported(ms)
  {
    forall m, m', op: nat, op': nat :: m in ms && m' in ms ==> PairInOrder(m, op, m', op')
  }

  predicate ReportInOrder(m: DoViewChange) {
    forall e :: e in m.entries ==> InOrder(e.hash)
  }

  // Following the merge.

  ghost predicate TakenFrom(ms: seq<DoViewChange>, h: set<RequestId>, id: RequestId, m: DoViewChange, op: nat)
    requires AllReported(ms)
  {
    m in ms && Has(m, op) && Id(At(m, op).request) == id && History(At(m, op).hash) <= h
  }

  /** Each request beyond `at` was reported by someone, and so was, and is here, all that preceded it there. */
  ghost predicate Closed(ms: seq<DoViewChange>, at: Hash, h: set<RequestId>)
    requires AllReported(ms)
  {
    forall id :: id in h && id !in History(at) ==> exists m, op: nat :: TakenFrom(ms, h, id, m, op)
  }

  function LastHash(a: Acc): Hash {
    HashUpTo(EmptyHash, a.out, |a.out|)
  }

  /** What has been merged so far, on top of the hash `at` that all reports share. */
  ghost predicate Good(ms: seq<DoViewChange>, at: Hash, a: Acc)
    requires AllReported(ms)
  {
    var h := History(LastHash(a));
    && a.out != [] && InOrder(LastHash(a)) && at.Link? && at.id in a.seen
    && a.seen <= h <= History(at) + a.seen && History(at) <= h && Closed(ms, at, h)
  }

  /** A new request is above all of its client that were taken. */
  lemma NextIsAbove(ms: seq<DoViewChange>, at: Hash, a: Acc, m: DoViewChange, op: nat)
    requires AllReported(ms) && m in ms && Has(m, op) && Good(ms, at, a) && ClientsInOrder(ms)
    requires var e := At(m, op); InOrder(e.hash) && OwnHash(e) && History(at) <= History(e.hash.prev)
    requires Id(At(m, op).request) !in a.seen
    ensures Above(Id(At(m, op).request), History(LastHash(a)))
  {
    var id, h := Id(At(m, op).request), History(LastHash(a));
    forall x | x in h && x.0 == id.0
      ensures x.1 < id.1
    {
      if x !in History(at) {
        var m', op' :| TakenFrom(ms, h, x, m', op');
        assert PairInOrder(m, op, m', op');
      }
    }
  }

  lemma ClosedNext(ms: seq<DoViewChange>, at: Hash, h: set<RequestId>, m: DoViewChange, op: nat)
    requires AllReported(ms) && m in ms && Has(m, op) && OwnHash(At(m, op)) && Closed(ms, at, h)
    requires History(At(m, op).hash.prev) <= h
    ensures Closed(ms, at, h + {Id(At(m, op).request)})
  {
    var e := At(m, op);
    var h' := h + {Id(e.request)};
    forall id | id in h' && id !in History(at)
      ensures exists m', op': nat :: TakenFrom(ms, h', id, m', op')
    {
      if id in h {
        var m', op' :| TakenFrom(ms, h, id, m', op');
        assert TakenFrom(ms, h', id, m', op');
      } else {
        assert TakenFrom(ms, h', id, m, op);
      }
    }
  }

  lemma ConsiderGood(ms: seq<DoViewChange>, at: Hash, a: Acc, newView: nat, m: DoViewChange, op: nat)
    requires AllReported(ms) && m in ms && Has(m, op) && Good(ms, at, a) && ClientsInOrder(ms)
    requires var e := At(m, op);
             && InOrder(e.hash) && OwnHash(e)
             && History(at) <= History(e.hash.prev) <= History(LastHash(a))
    ensures var a' := Consider(a, newView, At(m, op));
            && Good(ms, at, a') && History(LastHash(a)) <= History(LastHash(a'))
            && History(At(m, op).hash) <= History(LastHash(a'))
  {
    var e := At(m, op);
    var a', id := Consider(a, newView, e), Id(e.request);
    if id !in a.seen {
      NextIsAbove(ms, at, a, m, op);
      ClosedNext(ms, at, History(LastHash(a)), m, op);
      assert LastHash(a') == Link(LastHash(a), id);
    }
  }

  /** What precedes operation `lo` of the report has been taken. */
  ghost predicate TakenBefore(m: DoViewChange, maxStart: nat, lo: nat, h: set<RequestId>)
    requires Reported(m)
  {
    maxStart < lo <= m.lastspeculative && Has(m, lo - 1) ==> History(At(m, lo - 1).hash) <= h
  }

  /** The report has the shared hash at maxStart, and its client numbers are in order. */
  ghost predicate Shares(m: DoViewChange, maxStart: nat, at: Hash) {
    Reported(m) && ReportInOrder(m) && (m.entries != [] ==> Has(m, maxStart) && At(m, maxStart).hash == at)
  }

  /** Operation `op` of the report is considered after all before it. */
  lemma StepGood(ms: seq<DoViewChange>, at: Hash, a: Acc, newView: nat, m: DoViewChange, maxStart: nat, op: nat)
    requires AllReported(ms) && m in ms && Good(ms, at, a) && ClientsInOrder(ms) && Shares(m, maxStart, at)
    requires Has(m, op) && maxStart <= op && TakenBefore(m, maxStart, op, History(LastHash(a)))
    ensures var a' := Consider(a, newView, At(m, op));
            && Good(ms, at, a') && History(LastHash(a)) <= History(LastHash(a'))
            && History(At(m, op).hash) <= History(LastHash(a'))
  {
    var e := At(m, op);
    assert e in m.entries;
    if op > maxStart {
      HeldLinked(m, op - 1, At(m, op - 1).hash, e.hash);
      ReportHistory(m, maxStart, op - 1);
      ConsiderGood(ms, at, a, newView, m, op);
    }
  }

  lemma {:induction false} ConsiderRangeGood(ms: seq<DoViewChange>, at: Hash, a: Acc, newView: nat, m: DoViewChange,
                                             maxStart: nat, lo: nat, hi: nat)
    requires AllReported(ms) && m in ms && Good(ms, at, a) && ClientsInOrder(ms) && Shares(m, maxStart, at)
    requires maxStart <= lo <= hi && hi <= m.lastspeculative + 1 && forall i :: lo <= i < hi ==> Has(m, i)
    requires TakenBefore(m, maxStart, lo, History(LastHash(a)))
    ensures var a' := ConsiderRange(a, newView, m, lo, hi);
            && Good(ms, at, a') && History(LastHash(a)) <= History(LastHash(a'))
            && TakenBefore(m, maxStart, hi, History(LastHash(a')))
    decreases hi
  {
    if lo < hi {
      var op := hi - 1;
      ConsiderRangeGood(ms, at, a, newView, m, maxStart, lo, op);
      StepGood(ms, at, ConsiderRange(a, newView, m, lo, op), newView, m, maxStart, op);
    }
  }

  lemma Longer(m: DoViewChange, maxStart: nat, lo: nat, h: set<RequestId>, h': set<RequestId>)
    requires Reported(m) && TakenBefore(m, maxStart, lo, h) && h <= h'
    ensures TakenBefore(m, maxStart, lo, h')
  {
  }

  lemma ReportGood(ms: seq<DoViewChange>, at: Hash, h: set<RequestId>, a: Acc, newView: nat, maxStart: nat,
                   m: DoViewChange)
    requires AllReported(ms) && m in ms && Good(ms, at, a) && ClientsInOrder(ms) && Shares(m, maxStart, at)
    requires LongEnough(m, maxStart) && maxStart >= 1 && h <= History(LastHash(a))
    requires TakenBefore(m, maxStart, LeftoverStart(m, maxStart), h)
    ensures var a' := ConsiderRange(a, newView, m, LeftoverStart(m, maxStart), m.lastspeculative + 1);
            Good(ms, at, a') && History(LastHash(a)) <= History(LastHash(a'))
  {
    var lo := LeftoverStart(m, maxStart);
    if lo <= m.lastspeculative {
      Longer(m, maxStart, lo, h, History(LastHash(a)));
      ConsiderRangeGood(ms, at, a, newView, m, maxStart, lo, m.lastspeculative + 1);
    }
  }

  lemma {:induction false} ConsiderAllGood(all: seq<DoViewChange>, at: Hash, a: Acc, newView: nat, maxStart: nat,
                                           ms: seq<DoViewChange>)
    requires AllReported(all) && Mergeable(ms, maxStart) && maxStart >= 1 && forall m :: m in ms ==> m in all
    requires Good(all, at, a) && ClientsInOrder(all)
    requires forall m :: m in ms ==> Shares(m, maxStart, at)
    requires forall m :: m in ms ==> TakenBefore(m, maxStart, LeftoverStart(m, maxStart), History(LastHash(a)))
    ensures var a' := ConsiderAll(a, newView, maxStart, ms);
            Good(all, at, a') && History(LastHash(a)) <= History(LastHash(a'))
    decreases |ms|
  {
    if ms != [] {
      var n := |ms| - 1;
      assert ms[n] in ms;
      ConsiderAllGood(all, at, a, newView, maxStart, ms[..n]);
      ReportGood(all, at, History(LastHash(a)), ConsiderAll(a, newView, maxStart, ms[..n]), newView, maxStart, ms[n]);
    }
  }

  // The base of the merge.

  ghost predicate CommitsTaken(ms: seq<DoViewChange>, maxStart: nat)
    requires ms != [] && AllReported(ms)
  {
    forall m :: m in ms ==> CommitTaken(ms, maxStart, m)
  }

  /** The commit point of the report is among the committed entries taken. */
  ghost predicate CommitTaken(ms: seq<DoViewChange>, maxStart: nat, m: DoViewChange)
    requires ms != [] && Reported(m)
  {
    maxStart <= m.lastcommitted && Has(m, m.lastcommitted) ==>
      HasHash(Stage1(ms, maxStart), At(m, m.lastcommitted).hash)
  }

  predicate HasHash(es: seq<Entry>, h: Hash) {
    exists k :: 0 <= k < |es| && es[k].hash == h
  }

  lemma BaseTakenFrom(c: Config, ms: seq<DoViewChange>, maxStart: nat, run: seq<Entry>, i: nat)
    returns (m: DoViewChange)
    requires ms != [] && Mergeable(ms, maxStart) && AgreedRun(c, ms, Stage2Start(ms, maxStart), run)
    requires var b := Base(ms, maxStart, run); i < |b| && Linked(b) && OwnHash(b[0])
    ensures var b := Base(ms, maxStart, run);
            TakenFrom(ms, History(b[|b| - 1].hash), Id(b[i].request), m, b[i].opnum)
  {
    var b := Base(ms, maxStart, run);
    m := BaseEntry(c, ms, maxStart, run, i);
    BaseHistory(b, i, |b| - 1);
    ReportedEntry(m, b[i].opnum);
  }

  lemma BaseClosed(c: Config, ms: seq<DoViewChange>, maxStart: nat, run: seq<Entry>, at: Hash)
    requires ms != [] && Mergeable(ms, maxStart) && AgreedRun(c, ms, Stage2Start(ms, maxStart), run)
    requires var b := Base(ms, maxStart, run);
             && b != [] && Linked(b) && OwnHash(b[0])
             && History(b[|b| - 1].hash) == History(at) + Ids(b)
    ensures var b := Base(ms, maxStart, run); Closed(ms, at, History(b[|b| - 1].hash))
  {
    var b := Base(ms, maxStart, run);
    var h := History(b[|b| - 1].hash);
    forall id | id in h && id !in History(at)
      ensures exists m, op: nat :: TakenFrom(ms, h, id, m, op)
    {
      var e :| e in b && Id(e.request) == id;
      var i :| 0 <= i < |b| && b[i] == e;
      var m := BaseTakenFrom(c, ms, maxStart, run, i);
    }
  }

  lemma BaseGood(c: Config, ms: seq<DoViewChange>, maxStart: nat, run: seq<Entry>, at: Hash)
    requires ms != [] && Mergeable(ms, maxStart) && Decisive(c, ms) && CommittedSupported(c, ms, maxStart)
    requires AgreedRun(c, ms, Stage2Start(ms, maxStart), run)
    requires forall m :: m in ms ==> ReportInOrder(m)
    requires var b := Base(ms, maxStart, run); b != [] && b[0].hash == at && OwnHash(b[0])
    ensures var b := Base(ms, maxStart, run); Good(ms, at, Acc(b, Ids(b)))
  {
    var b := Base(ms, maxStart, run);
    var n := |b| - 1;
    BaseLinked(c, ms, maxStart, run);
    LinkedHistory(b, n);
    assert b[..n + 1] == b;
    var m := BaseEntry(c, ms, maxStart, run, n);
    assert At(m, b[n].opnum) in m.entries;
    BaseClosed(c, ms, maxStart, run, at);
    assert b[0] in b;
  }

  lemma BaseHistory(b: seq<Entry>, i: nat, n: nat)
    requires Linked(b) && i <= n < |b| && OwnHash(b[0])
    ensures History(b[i].hash) <= History(b[n].hash)
  {
    LinkedHistory(b, i);
    LinkedHistory(b, n);
    assert b[..n + 1] == b[..i + 1] + b[i + 1..n + 1];
  }

  lemma PrefixHistory(s: seq<Entry>, b: seq<Entry>, h: Hash)
    requires s <= b && b != [] && Linked(b) && OwnHash(b[0]) && HasHash(s, h)
    ensures History(h) <= History(b[|b| - 1].hash)
  {
    var k :| 0 <= k < |s| && s[k].hash == h;
    BaseHistory(b, k, |b| - 1);
  }

  lemma BaseTakesBefore(c: Config, ms: seq<DoViewChange>, maxStart: nat, run: seq<Entry>, m: DoViewChange)
    requires ms != [] && Mergeable(ms, maxStart) && Decisive(c, ms) && CommittedSupported(c, ms, maxStart)
    requires AgreedRun(c, ms, Stage2Start(ms, maxStart), run) && m in ms && CommitTaken(ms, maxStart, m)
    requires var b := Base(ms, maxStart, run); b != [] && OwnHash(b[0])
    ensures var b := Base(ms, maxStart, run);
            TakenBefore(m, maxStart, LeftoverStart(m, maxStart), History(LastHash(Acc(b, Ids(b)))))
  {
    var b, lo, s := Base(ms, maxStart, run), LeftoverStart(m, maxStart), Stage1(ms, maxStart);
    if maxStart < lo <= m.lastspeculative && Has(m, lo - 1) {
      BaseLinked(c, ms, maxStart, run);
      PrefixHistory(s, b, At(m, lo - 1).hash);
    }
  }

  /** So the last hash of the merged log is in order. */
  lemma MergeInOrder(c: Config, newView: nat, maxStart: nat, ms: seq<DoViewChange>, run: seq<Entry>, out: seq<Entry>,
                     at: Hash)
    requires ms != [] && Mergeable(ms, maxStart) && maxStart >= 1 && Decisive(c, ms)
    requires CommittedSupported(c, ms, maxStart)
    requires MergedWith(c, newView, maxStart, ms, run, out) && CommitsTaken(ms, maxStart) && ClientsInOrder(ms)
    requires forall m :: m in ms ==> Shares(m, maxStart, at)
    requires var b := Base(ms, maxStart, run); b != [] && b[0].hash == at && OwnHash(b[0])
    ensures out != [] && InOrder(out[|out| - 1].hash)
  {
    var b := Base(ms, maxStart, run);
    BaseGood(c, ms, maxStart, run, at);
    forall m | m in ms
      ensures TakenBefore(m, maxStart, LeftoverStart(m, maxStart), History(LastHash(Acc(b, Ids(b)))))
    {
      BaseTakesBefore(c, ms, maxStart, run, m);
    }
    ConsiderAllGood(ms, at, Acc(b, Ids(b)), newView, maxStart, ms);
  }

  // Exactly when the merge keeps the order.

  /** The requests seen once operations lo..hi-1 of a report have been considered. */
  function SeenRange(seen: set<RequestId>, m: DoViewChange, lo: nat, hi: nat): set<RequestId>
    requires Reported(m) && forall i :: lo <= i < hi ==> Has(m, i)
    decreases hi
  {
    if hi <= lo then seen else SeenRange(seen, m, lo, hi - 1) + {Id(At(m, hi - 1).request)}
  }

  /** Each of them was there when its turn came, or was above all of its client that were. */
  predicate RangeFits(seen: set<RequestId>, m: DoViewChange, lo: nat, hi: nat)
    requires Reported(m) && forall i :: lo <= i < hi ==> Has(m, i)
    decreases hi
  {
    lo < hi ==>
      && RangeFits(seen, m, lo, hi - 1)
      && var id, before := Id(At(m, hi - 1).request), SeenRange(seen, m, lo, hi - 1);
         id in before || Above(id, before)
  }

  function SeenAll(seen: set<RequestId>, maxStart: nat, ms: seq<DoViewChange>): set<RequestId>
    requires Mergeable(ms, maxStart)
  {
    if ms == [] then seen
    else
      var n := |ms| - 1;
      SeenRange(SeenAll(seen, maxStart, ms[..n]), ms[n], LeftoverStart(ms[n], maxStart), ms[n].lastspeculative + 1)
  }

  /** No leftover comes after a higher number of its client, the reports taken one after the other. */
  predicate LeftoversFit(seen: set<RequestId>, maxStart: nat, ms: seq<DoViewChange>)
    requires Mergeable(ms, maxStart)
  {
    ms != [] ==>
      var n := |ms| - 1;
      && LeftoversFit(seen, maxStart, ms[..n])
      && RangeFits(SeenAll(seen, maxStart, ms[..n]), ms[n], LeftoverStart(ms[n], maxStart), ms[n].lastspeculative + 1)
  }

  /** What has been merged so far, whether in order or not. */
  ghost predicate Plain(at: Hash, a: Acc) {
    && a.out != [] && at.Link? && at.id in a.seen && NoRepeats(LastHash(a))
    && History(LastHash(a)) == History(at) + a.seen
  }

  lemma StepExact(at: Hash, a: Acc, newView: nat, m: DoViewChange, maxStart: nat, op: nat)
    requires Plain(at, a) && Shares(m, maxStart, at) && Has(m, op) && maxStart <= op
    ensures var a', id := Consider(a, newView, At(m, op)), Id(At(m, op).request);
            && Plain(at, a') && a'.seen == a.seen + {id}
            && (InOrder(LastHash(a')) <==> InOrder(LastHash(a)) && (id in a.seen || Above(id, a.seen)))
  {
    var e := At(m, op);
    var a', id := Consider(a, newView, e), Id(e.request);
    assert e in m.entries;
    if id !in a.seen {
      assert op > maxStart;
      HeldLinked(m, op - 1, At(m, op - 1).hash, e.hash);
      ReportHistory(m, maxStart, op - 1);
      assert Above(id, History(at));
      assert LastHash(a') == Link(LastHash(a), id);
    }
  }

  lemma RangeUnfolds(seen: set<RequestId>, m: DoViewChange, lo: nat, hi: nat)
    requires Reported(m) && lo < hi && forall i :: lo <= i < hi ==> Has(m, i)
    ensures var id, before := Id(At(m, hi - 1).request), SeenRange(seen, m, lo, hi - 1);
            && SeenRange(seen, m, lo, hi) == before + {id}
            && (RangeFits(seen, m, lo, hi) <==> RangeFits(seen, m, lo, hi - 1) && (id in before || Above(id, before)))
  {
  }

  lemma {:induction false} RangeExact(at: Hash, a: Acc, newView: nat, m: DoViewChange, maxStart: nat, lo: nat, hi: nat)
    requires Plain(at, a) && Shares(m, maxStart, at) && maxStart <= lo && forall i :: lo <= i < hi ==> Has(m, i)
    ensures var a' := ConsiderRange(a, newView, m, lo, hi);
            && Plain(at, a') && a'.seen == SeenRange(a.seen, m, lo, hi)
            && (InOrder(LastHash(a')) <==> InOrder(LastHash(a)) && RangeFits(a.seen, m, lo, hi))
    decreases hi
  {
    if lo < hi {
      var op, id := hi - 1, Id(At(m, hi - 1).request);
      RangeExact(at, a, newView, m, maxStart, lo, op);
      var mid := ConsiderRange(a, newView, m, lo, op);
      StepExact(at, mid, newView, m, maxStart, op);
      assert ConsiderRange(a, newView, m, lo, hi) == Consider(mid, newView, At(m, op));
      RangeUnfolds(a.seen, m, lo, hi);
    }
  }

  lemma {:induction false} AllExact(at: Hash, a: Acc, newView: nat, maxStart: nat, ms: seq<DoViewChange>)
    requires Plain(at, a) && Mergeable(ms, maxStart) && forall m :: m in ms ==> Shares(m, maxStart, at)
    ensures var a' := ConsiderAll(a, newView, maxStart, ms);
            && Plain(at, a') && a'.seen == SeenAll(a.seen, maxStart, ms)
            && (InOrder(LastHash(a')) <==> InOrder(LastHash(a)) && LeftoversFit(a.seen, maxStart, ms))
    decreases |ms|
  {
    if ms != [] {
      var n := |ms| - 1;
      assert ms[n] in ms;
      AllExact(at, a, newView, maxStart, ms[..n]);
      RangeExact(at, ConsiderAll(a, newView, maxStart, ms[..n]), newView, ms[n], maxStart,
                 LeftoverStart(ms[n], maxStart), ms[n].lastspeculative + 1);
    }
  }

  /** The last hash of the merged log is in order exactly when the leftovers fit. */
  lemma MergeInOrderExactly(c: Config, newView: nat, maxStart: nat, ms: seq<DoViewChange>, run: seq<Entry>,
                            out: seq<Entry>,
                            at: Hash)
    requires ms != [] && Mergeable(ms, maxStart) && Decisive(c, ms) && CommittedSupported(c, ms, maxStart)
    requires MergedWith(c, newView, maxStart, ms, run, out) && forall m :: m in ms ==> Shares(m, maxStart, at)
    requires var b := Base(ms, maxStart, run); b != [] && b[0].hash == at && OwnHash(b[0])
    ensures out != [] && NoRepeats(out[|out| - 1].hash)
    ensures InOrder(out[|out| - 1].hash) <==> LeftoversFit(Ids(Base(ms, maxStart, run)), maxStart, ms)
  {
    var b := Base(ms, maxStart, run);
    BaseGood(c, ms, maxStart, run, at);
    InOrderNoRepeats(LastHash(Acc(b, Ids(b))));
    AllExact(at, Acc(b, Ids(b)), newView, maxStart, ms);
  }

  lemma {:induction false} NoRepeatsBefore(log: seq<Entry>, p: nat, i: nat)
    requires Chained(EmptyHash, log) && p <= i < |log| && NoRepeats(log[i].hash)
    ensures NoRepeats(log[p].hash)
    decreases i
  {
    assert ChainedAt(EmptyHash, log, i);
    if p < i {
      NoRepeatsBefore(log, p, i - 1);
    }
  }

  /** Without repeated requests, numbers that never fall increase. */
  lemma AcceptedIncreasing(log: seq<Entry>)
    requires Numbered(log, 1) && Chained(EmptyHash, log) && log != [] && NoRepeats(log[|log| - 1].hash)
    requires Accepted(log) && forall e :: e in log ==> e.request.clientreqid >= 1
    ensures Increasing(log)
  {
    forall i | 0 <= i < |log|
      ensures FreshAt(log, i)
    {
      assert AcceptedAt(log, i) && ChainedAt(EmptyHash, log, i) && log[i] in log;
      NoRepeatsBefore(log, i, |log| - 1);
      ReplayInLog(log[..i], log[i].request.clientid);
      var known := Get(Replay(log[..i]), log[i].request.clientid);
      if known.lastReqOpnum > 0 {
        EntryInHistory(log, known.lastReqOpnum - 1, i - 1);
      }
    }
  }
}

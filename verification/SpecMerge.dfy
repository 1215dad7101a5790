/**
 * Speculative Paxos reconciliation: merging the logs reported in DOVIEWCHANGE messages.
 *
 * The merge has three stages. It takes the committed entries of the report with the most of them, then
 * every further operation whose hash enough reports share, and finally appends, in the new view, every
 * other speculative operation that no earlier stage has taken.
 */
module SpecMerge {
  import opened Numbers
  import opened Quorums
  import opened Logs

  datatype DoViewChange = DoViewChange(replicaidx: nat, lastnormalview: nat, lastspeculative: nat,
                                       lastcommitted: nat, entries: seq<Entry>)

  /** Whether a report carries an entry for operation `op`. */
  predicate Has(m: DoViewChange, op: nat) {
    m.entries != [] && m.entries[0].opnum <= op <= m.lastspeculative
  }

  function At(m: DoViewChange, op: nat): (e: Entry)
    requires Reported(m) && Has(m, op)
    ensures e.opnum == op
  {
    m.entries[op - m.entries[0].opnum]
  }

  /** A report carries an unbroken, hash-linked stretch of its sender's log, up to its end. */
  predicate Reported(m: DoViewChange) {
    && m.lastcommitted <= m.lastspeculative
    && (m.entries == [] ==> m.lastspeculative == 0)
    && (m.entries != [] ==>
          && m.entries[0].opnum >= 1
          && Numbered(m.entries, m.entries[0].opnum)
          && m.entries[0].opnum + |m.entries| == m.lastspeculative + 1)
    && Linked(m.entries)
    && (forall e :: e in m.entries ==> OwnHash(e))
    && (forall e :: e in m.entries && e.opnum <= m.lastcommitted ==> e.state == Committed)
  }

  /** The report reaches back far enough to be merged from `maxStart` on. */
  predicate LongEnough(m: DoViewChange, maxStart: nat) {
    m.entries != [] ==> m.entries[0].opnum <= Max(1, Max(m.lastcommitted, maxStart))
  }

  predicate Mergeable(dvcs: seq<DoViewChange>, maxStart: nat) {
    forall m :: m in dvcs ==> Reported(m) && LongEnough(m, maxStart)
  }

  // Reports from the latest normal view.

  function MaxView(dvcs: seq<DoViewChange>): (v: nat)
    ensures forall m :: m in dvcs ==> m.lastnormalview <= v
    ensures dvcs != [] ==> exists m :: m in dvcs && m.lastnormalview == v
  {
    if dvcs == [] then 0
    else
      var n := |dvcs| - 1;
      assert dvcs == dvcs[..n] + [dvcs[n]];
      Max(MaxView(dvcs[..n]), dvcs[n].lastnormalview)
  }

  function InView(dvcs: seq<DoViewChange>, v: nat): (r: seq<DoViewChange>)
    ensures |r| <= |dvcs|
    ensures forall m :: m in r <==> m in dvcs && m.lastnormalview == v
  {
    if dvcs == [] then []
    else
      var n := |dvcs| - 1;
      assert dvcs == dvcs[..n] + [dvcs[n]];
      InView(dvcs[..n], v) + if dvcs[n].lastnormalview == v then [dvcs[n]] else []
  }

  function Latest(dvcs: seq<DoViewChange>): (ms: seq<DoViewChange>)
    ensures dvcs != [] ==> ms != []
  {
    var v := MaxView(dvcs);
    assert forall m :: m in dvcs && m.lastnormalview == v ==> m in InView(dvcs, v);
    InView(dvcs, v)
  }

  lemma InViewAbove(dvcs: seq<DoViewChange>, v: nat)
    requires v > MaxView(dvcs)
    ensures InView(dvcs, v) == []
  {
    assert forall m :: m !in InView(dvcs, v);
  }

  method FindLatest(dvcs: seq<DoViewChange>) returns (latest: seq<DoViewChange>)
    ensures latest == Latest(dvcs)
  {
    var latestView := 0;
    latest := [];
    for k := 0 to |dvcs|
      invariant latestView == MaxView(dvcs[..k])
      invariant latest == InView(dvcs[..k], latestView)
    {
      assert dvcs[..k + 1][..k] == dvcs[..k];
      if dvcs[k].lastnormalview > latestView {
        latestView := dvcs[k].lastnormalview;
        latest := [];
        InViewAbove(dvcs[..k], latestView);
      }
      if dvcs[k].lastnormalview == latestView {
        latest := latest + [dvcs[k]];
      }
    }
    assert dvcs[..|dvcs|] == dvcs;
  }

  /** The first report, in order, with the most committed operations. */
  function MostCommitted(ms: seq<DoViewChange>): (m: DoViewChange)
    requires ms != []
    ensures m in ms
    ensures forall x :: x in ms ==> x.lastcommitted <= m.lastcommitted
  {
    var n := |ms| - 1;
    if n == 0 then ms[0]
    else
      var best := MostCommitted(ms[..n]);
      assert forall x :: x in ms ==> x in ms[..n] || x == ms[n];
      if best.lastcommitted < ms[n].lastcommitted then ms[n] else best
  }

  function MaxSpeculative(ms: seq<DoViewChange>): (v: nat)
    ensures forall m :: m in ms ==> m.lastspeculative <= v
  {
    if ms == [] then 0
    else
      var n := |ms| - 1;
      assert ms == ms[..n] + [ms[n]];
      Max(MaxSpeculative(ms[..n]), ms[n].lastspeculative)
  }

  method FindMostCommitted(ms: seq<DoViewChange>) returns (best: DoViewChange)
    requires ms != []
    ensures best == MostCommitted(ms)
  {
    best := ms[0];
    assert ms[..1] == [ms[0]];
    for k := 1 to |ms|
      invariant best == MostCommitted(ms[..k])
    {
      assert ms[..k + 1][..k] == ms[..k];
      if best.lastcommitted < ms[k].lastcommitted {
        best := ms[k];
      }
    }
    assert ms[..|ms|] == ms;
  }

  method FindMaxSpeculative(ms: seq<DoViewChange>) returns (best: nat)
    ensures best == MaxSpeculative(ms)
  {
    best := 0;
    for k := 0 to |ms|
      invariant best == MaxSpeculative(ms[..k])
    {
      assert ms[..k + 1][..k] == ms[..k];
      if best < ms[k].lastspeculative {
        best := ms[k].lastspeculative;
      }
    }
    assert ms[..|ms|] == ms;
  }

  // Stage 1: the committed entries at or after maxStart.

  function CommittedFrom(es: seq<Entry>, maxStart: nat, lastcommitted: nat): seq<Entry> {
    if es == [] then []
    else
      var n := |es| - 1;
      CommittedFrom(es[..n], maxStart, lastcommitted) +
      if maxStart <= es[n].opnum <= lastcommitted then [Taken(es[n])] else []
  }

  function Taken(e: Entry): Entry {
    Entry(e.view, e.opnum, Committed, e.request, e.hash, 0)
  }

  function FirstUncommitted(committed: seq<Entry>, maxStart: nat): nat {
    Max(if committed == [] then 1 else committed[|committed| - 1].opnum + 1, maxStart)
  }

  // Stage 2: operations whose hash enough reports share.

  predicate Votes(m: DoViewChange, op: nat, h: Hash)
    requires Reported(m)
  {
    Has(m, op) && At(m, op).hash == h
  }

  predicate AllReported(ms: seq<DoViewChange>) {
    forall m :: m in ms ==> Reported(m)
  }

  /** How many reports hold hash `h` at operation `op`. */
  function Count(ms: seq<DoViewChange>, op: nat, h: Hash): (k: nat)
    requires AllReported(ms)
    ensures k <= |ms|
  {
    if ms == [] then 0
    else
      var n := |ms| - 1;
      Count(ms[..n], op, h) + if Votes(ms[n], op, h) then 1 else 0
  }

  /** The entry of the first report that holds hash `h` at operation `op`. */
  function FirstWith(ms: seq<DoViewChange>, op: nat, h: Hash): (e: Entry)
    requires AllReported(ms)
    requires Count(ms, op, h) > 0
    ensures e.opnum == op && e.hash == h
    ensures exists m :: m in ms && Votes(m, op, h) && e == At(m, op)
  {
    var n := |ms| - 1;
    if Count(ms[..n], op, h) > 0 then FirstWith(ms[..n], op, h) else At(ms[n], op)
  }

  function Needed(c: Config, ms: seq<DoViewChange>): nat {
    Min(RecoveryQuorum(c), |ms|)
  }

  ghost predicate Supported(c: Config, ms: seq<DoViewChange>, op: nat, h: Hash)
    requires AllReported(ms)
  {
    Count(ms, op, h) >= Needed(c, ms)
  }

  ghost predicate Unsupported(c: Config, ms: seq<DoViewChange>, op: nat)
    requires AllReported(ms)
  {
    forall h :: !Supported(c, ms, op, h)
  }

  function Agreed(ms: seq<DoViewChange>, op: nat, h: Hash): Entry
    requires AllReported(ms)
    requires Count(ms, op, h) > 0
  {
    var e := FirstWith(ms, op, h);
    Entry(e.view, op, Speculative, e.request, h, 0)
  }

  ghost predicate AgreedAt(c: Config, ms: seq<DoViewChange>, op: nat, e: Entry)
    requires AllReported(ms) && ms != []
  {
    Supported(c, ms, op, e.hash) && Count(ms, op, e.hash) > 0 && e == Agreed(ms, op, e.hash)
  }

  ghost predicate AgreedIn(c: Config, ms: seq<DoViewChange>, next: nat, run: seq<Entry>, k: nat)
    requires AllReported(ms) && ms != [] && k < |run|
  {
    AgreedAt(c, ms, next + k, run[k])
  }

  /** `run` holds one supported entry per operation from `next`, and stops only for want of one. */
  ghost predicate AgreedRun(c: Config, ms: seq<DoViewChange>, next: nat, run: seq<Entry>)
    requires AllReported(ms) && ms != []
  {
    && (forall k :: 0 <= k < |run| ==> AgreedIn(c, ms, next, run, k))
    && (next + |run| <= MaxSpeculative(ms) ==> Unsupported(c, ms, next + |run|))
  }

  // Stage 3: everything else, in the new view.

  datatype Acc = Acc(out: seq<Entry>, seen: set<RequestId>)

  function Ids(es: seq<Entry>): set<RequestId> {
    set e | e in es :: Id(e.request)
  }

  function NextOp(out: seq<Entry>): nat {
    if out == [] then 1 else out[|out| - 1].opnum + 1
  }

  function Consider(a: Acc, newView: nat, e: Entry): Acc {
    if Id(e.request) in a.seen then a
    else Acc(a.out + [Entry(newView, NextOp(a.out), Speculative, e.request,
                            ComputeHash(HashUpTo(EmptyHash, a.out, |a.out|), e.request), 0)],
             a.seen + {Id(e.request)})
  }

  /** Considers the operations lo..hi-1 of one report, in order. */
  function ConsiderRange(a: Acc, newView: nat, m: DoViewChange, lo: nat, hi: nat): Acc
    requires Reported(m)
    requires forall i :: lo <= i < hi ==> Has(m, i)
    decreases hi
  {
    if hi <= lo then a
    else Consider(ConsiderRange(a, newView, m, lo, hi - 1), newView, At(m, hi - 1))
  }

  function LeftoverStart(m: DoViewChange, maxStart: nat): nat {
    Max(m.lastcommitted + 1, maxStart)
  }

  function ConsiderAll(a: Acc, newView: nat, maxStart: nat, ms: seq<DoViewChange>): Acc
    requires Mergeable(ms, maxStart)
  {
    if ms == [] then a
    else
      var n := |ms| - 1;
      ConsiderRange(ConsiderAll(a, newView, maxStart, ms[..n]), newView, ms[n],
                    LeftoverStart(ms[n], maxStart), ms[n].lastspeculative + 1)
  }

  // The whole merge.

  function Stage1(ms: seq<DoViewChange>, maxStart: nat): seq<Entry>
    requires ms != []
  {
    var mc := MostCommitted(ms);
    CommittedFrom(mc.entries, maxStart, mc.lastcommitted)
  }

  /** The first operation stage 2 looks at. */
  function Stage2Start(ms: seq<DoViewChange>, maxStart: nat): nat
    requires ms != []
  {
    FirstUncommitted(Stage1(ms, maxStart), maxStart)
  }

  /** `out` is a merge of the latest-view reports `ms`, with `run` the outcome of stage 2. */
  ghost predicate MergedWith(c: Config, newView: nat, maxStart: nat, ms: seq<DoViewChange>,
                             run: seq<Entry>, out: seq<Entry>)
    requires ms != [] && Mergeable(ms, maxStart)
  {
    var base := Stage1(ms, maxStart) + run;
    && AgreedRun(c, ms, Stage2Start(ms, maxStart), run)
    && out == ConsiderAll(Acc(base, Ids(base)), newView, maxStart, ms).out
  }

  ghost predicate IsMerge(c: Config, newView: nat, maxStart: nat, ms: seq<DoViewChange>, out: seq<Entry>)
    requires ms != [] && Mergeable(ms, maxStart)
  {
    exists run :: MergedWith(c, newView, maxStart, ms, run, out)
  }

  // The merge as the replica runs it.

  lemma {:induction false} CommittedStops(es: seq<Entry>, k: nat, maxStart: nat, lastcommitted: nat)
    requires k <= |es|
    requires forall i :: k <= i < |es| ==> es[i].opnum > lastcommitted
    ensures CommittedFrom(es, maxStart, lastcommitted) == CommittedFrom(es[..k], maxStart, lastcommitted)
    decreases |es|
  {
    if k == |es| {
      assert es[..k] == es;
    } else {
      var n := |es| - 1;
      CommittedStops(es[..n], k, maxStart, lastcommitted);
      assert es[..n][..k] == es[..k];
    }
  }

  method TakeCommitted(mc: DoViewChange, maxStart: nat) returns (out: seq<Entry>, seen: set<RequestId>, next: nat)
    requires Reported(mc)
    ensures out == CommittedFrom(mc.entries, maxStart, mc.lastcommitted)
    ensures seen == Ids(out)
    ensures next == FirstUncommitted(out, maxStart)
  {
    out, seen, next := [], {}, 0;
    var k := 0;
    while k < |mc.entries|
      invariant 0 <= k <= |mc.entries|
      invariant out == CommittedFrom(mc.entries[..k], maxStart, mc.lastcommitted)
      invariant seen == Ids(out)
      invariant next == if out == [] then 0 else out[|out| - 1].opnum
    {
      var entry := mc.entries[k];
      if entry.opnum > mc.lastcommitted && entry.opnum >= maxStart {
        break;
      }
      assert mc.entries[..k + 1][..k] == mc.entries[..k];
      if entry.opnum >= maxStart {
        assert entry.state == Committed;
        seen := seen + {Id(entry.request)};
        IdsAppend(out, Taken(entry));
        out := out + [Taken(entry)];
        next := entry.opnum;
      }
      k := k + 1;
    }
    CommittedStops(mc.entries, k, maxStart, mc.lastcommitted);
    next := next + 1;
    if next < maxStart {
      next := maxStart;
    }
  }

  lemma IdsAppend(es: seq<Entry>, e: Entry)
    ensures Ids(es + [e]) == Ids(es) + {Id(e.request)}
  {
    forall x | x in Ids(es) + {Id(e.request)}
      ensures x in Ids(es + [e])
    {
      if x != Id(e.request) {
        var y :| y in es && Id(y.request) == x;
        assert y in es + [e];
      } else {
        assert e in es + [e];
      }
    }
  }

  /** The tally of one operation: the votes for each hash, and the first entry that carried it. */
  ghost predicate Tallied(ms: seq<DoViewChange>, op: nat, hashCount: map<Hash, nat>,
                          reqsByHash: map<Hash, Request>, viewnumByHash: map<Hash, nat>)
    requires AllReported(ms)
  {
    forall h {:trigger TalliedFor(ms, op, h, hashCount, reqsByHash, viewnumByHash)} ::
      TalliedFor(ms, op, h, hashCount, reqsByHash, viewnumByHash)
  }

  ghost predicate TalliedFor(ms: seq<DoViewChange>, op: nat, h: Hash, hashCount: map<Hash, nat>,
                             reqsByHash: map<Hash, Request>, viewnumByHash: map<Hash, nat>)
    requires AllReported(ms)
  {
    && (h in hashCount <==> Count(ms, op, h) > 0)
    && (h in hashCount ==>
          && h in reqsByHash && h in viewnumByHash
          && hashCount[h] == Count(ms, op, h)
          && reqsByHash[h] == FirstWith(ms, op, h).request
          && viewnumByHash[h] == FirstWith(ms, op, h).view)
  }

  method Tally(ms: seq<DoViewChange>, op: nat)
    returns (hashCount: map<Hash, nat>, reqsByHash: map<Hash, Request>, viewnumByHash: map<Hash, nat>)
    requires AllReported(ms)
    requires forall m :: m in ms && op <= m.lastspeculative ==> Has(m, op)
    ensures Tallied(ms, op, hashCount, reqsByHash, viewnumByHash)
  {
    hashCount, reqsByHash, viewnumByHash := map[], map[], map[];
    for k := 0 to |ms|
      invariant Tallied(ms[..k], op, hashCount, reqsByHash, viewnumByHash)
    {
      var msg := ms[k];
      assert msg in ms;
      ghost var counts, reqs, views := hashCount, reqsByHash, viewnumByHash;
      if msg.lastspeculative >= op {
        var entry := msg.entries[op - msg.entries[0].opnum];
        if entry.hash in hashCount {
          hashCount := hashCount[entry.hash := hashCount[entry.hash] + 1];
        } else {
          hashCount := hashCount[entry.hash := 1];
          reqsByHash := reqsByHash[entry.hash := entry.request];
          viewnumByHash := viewnumByHash[entry.hash := entry.view];
        }
      }
      ghost var upto := ms[..k + 1];
      assert upto[..k] == ms[..k];
      forall h
        ensures TalliedFor(upto, op, h, hashCount, reqsByHash, viewnumByHash)
      {
        assert TalliedFor(ms[..k], op, h, counts, reqs, views);
      }
    }
    assert ms[..|ms|] == ms;
  }

  /** Picks a hash with enough votes, if there is one. */
  method FindSupported(hashCount: map<Hash, nat>, needed: nat) returns (found: Option<Hash>)
    ensures found.Some? ==> found.value in hashCount && hashCount[found.value] >= needed
    ensures found.None? ==> forall h :: h in hashCount ==> hashCount[h] < needed
  {
    found := None;
    var todo := hashCount.Keys;
    while todo != {} && found.None?
      invariant todo <= hashCount.Keys
      invariant found.Some? ==> found.value in hashCount && hashCount[found.value] >= needed
      invariant found.None? ==> forall h :: h in hashCount && h !in todo ==> hashCount[h] < needed
      decreases |todo|
    {
      var h :| h in todo;
      todo := todo - {h};
      if hashCount[h] >= needed {
        found := Some(h);
      }
    }
  }

  method TakeAgreed(c: Config, ms: seq<DoViewChange>, next0: nat) returns (run: seq<Entry>)
    requires AllReported(ms) && ms != []
    requires forall m, op :: m in ms && next0 <= op <= m.lastspeculative ==> Has(m, op)
    ensures AgreedRun(c, ms, next0, run)
  {
    var maxSpeculative: int := FindMaxSpeculative(ms);
    run := [];
    var next := next0;
    while next <= maxSpeculative
      invariant next == next0 + |run|
      invariant forall k :: 0 <= k < |run| ==> AgreedIn(c, ms, next0, run, k)
      decreases maxSpeculative - next
    {
      var hashCount, reqsByHash, viewnumByHash := Tally(ms, next);
      var found := FindSupported(hashCount, Needed(c, ms));
      if found.None? {
        assert Unsupported(c, ms, next) by {
          forall h ensures !Supported(c, ms, next, h) {
            assert TalliedFor(ms, next, h, hashCount, reqsByHash, viewnumByHash);
          }
        }
        break;
      }
      var h := found.value;
      assert TalliedFor(ms, next, h, hashCount, reqsByHash, viewnumByHash);
      ghost var before := run;
      run := run + [Entry(viewnumByHash[h], next, Speculative, reqsByHash[h], h, 0)];
      assert AgreedAt(c, ms, next, run[|run| - 1]);
      forall k | 0 <= k < |run|
        ensures AgreedIn(c, ms, next0, run, k)
      {
        assert k < |before| ==> AgreedIn(c, ms, next0, before, k);
      }
      next := next + 1;
    }
  }

  /** The inner loop: the leftovers of one report. */
  method TakeReport(newView: nat, maxStart: nat, msg: DoViewChange, out0: seq<Entry>, seen0: set<RequestId>)
    returns (out: seq<Entry>, seen: set<RequestId>)
    requires Reported(msg) && LongEnough(msg, maxStart)
    ensures Acc(out, seen)
         == ConsiderRange(Acc(out0, seen0), newView, msg, LeftoverStart(msg, maxStart), msg.lastspeculative + 1)
  {
    out, seen := out0, seen0;
    var lo := LeftoverStart(msg, maxStart);
    var i := lo;
    var next, lastHash := NextOp(out), HashUpTo(EmptyHash, out, |out|);
    while i <= msg.lastspeculative
      invariant lo <= i && (i <= msg.lastspeculative + 1 || i == lo)
      invariant forall j :: lo <= j < i ==> Has(msg, j)
      invariant Acc(out, seen) == ConsiderRange(Acc(out0, seen0), newView, msg, lo, i)
      invariant next == NextOp(out) && lastHash == HashUpTo(EmptyHash, out, |out|)
    {
      assert Has(msg, i);
      var entry := msg.entries[i - msg.entries[0].opnum];
      assert entry == At(msg, i);
      var reqid := Id(entry.request);
      if reqid !in seen {
        var hash := ComputeHash(lastHash, entry.request);
        out := out + [Entry(newView, next, Speculative, entry.request, hash, 0)];
        lastHash, seen, next := hash, seen + {reqid}, next + 1;
      }
      i := i + 1;
    }
  }

  method TakeLeftovers(newView: nat, maxStart: nat, ms: seq<DoViewChange>, base: seq<Entry>, seen0: set<RequestId>)
    returns (out: seq<Entry>)
    requires Mergeable(ms, maxStart)
    ensures out == ConsiderAll(Acc(base, seen0), newView, maxStart, ms).out
  {
    out := base;
    var seen := seen0;
    for k := 0 to |ms|
      invariant Acc(out, seen) == ConsiderAll(Acc(base, seen0), newView, maxStart, ms[..k])
    {
      assert ms[..k + 1][..k] == ms[..k] && ms[k] in ms;
      out, seen := TakeReport(newView, maxStart, ms[k], out, seen);
    }
    assert ms[..|ms|] == ms;
  }

  /** The logs of a quorum of reports, merged for a new view. */
  method MergeLogs(c: Config, newView: nat, maxStart: nat, dvcs: seq<DoViewChange>) returns (out: seq<Entry>)
    requires |dvcs| >= QuorumSize(c)
    requires Mergeable(dvcs, maxStart)
    ensures IsMerge(c, newView, maxStart, Latest(dvcs), out)
  {
    var latest := FindLatest(dvcs);
    var mc := FindMostCommitted(latest);
    var committed, seen, next := TakeCommitted(mc, maxStart);
    StageTwoInRange(latest, maxStart);
    var run := TakeAgreed(c, latest, next);
    seen := AddIds(committed, run, seen);
    out := TakeLeftovers(newView, maxStart, latest, committed + run, seen);
    assert MergedWith(c, newView, maxStart, latest, run, out);
  }

  method AddIds(out: seq<Entry>, run: seq<Entry>, seen0: set<RequestId>) returns (seen: set<RequestId>)
    requires seen0 == Ids(out)
    ensures seen == Ids(out + run)
  {
    seen := seen0;
    assert out + run[..0] == out;
    for k := 0 to |run|
      invariant seen == Ids(out + run[..k])
    {
      seen := seen + {Id(run[k].request)};
      assert out + run[..k + 1] == out + run[..k] + [run[k]];
      IdsAppend(out + run[..k], run[k]);
    }
    assert run[..|run|] == run;
  }

  lemma {:induction false} CommittedSlice(es: seq<Entry>, maxStart: nat, lastcommitted: nat)
    requires es != [] ==> Numbered(es, es[0].opnum)
    ensures var r := CommittedFrom(es, maxStart, lastcommitted);
            es != [] ==>
              var lo := Max(maxStart, es[0].opnum);
              var hi := Min(lastcommitted, es[0].opnum + |es| - 1);
              && |r| == (if lo <= hi then hi + 1 - lo else 0)
              && forall i :: 0 <= i < |r| ==> r[i] == Taken(es[lo + i - es[0].opnum])
  {
    if |es| == 1 {
      assert CommittedFrom(es[..0], maxStart, lastcommitted) == [];
    } else if es != [] {
      var n := |es| - 1;
      assert es[..n][0] == es[0] && forall i :: 0 <= i < n ==> es[..n][i] == es[i];
      CommittedSlice(es[..n], maxStart, lastcommitted);
      var first, last, lo := es[0].opnum, es[n].opnum, Max(maxStart, es[0].opnum);
      var r, rest := CommittedFrom(es, maxStart, lastcommitted), CommittedFrom(es[..n], maxStart, lastcommitted);
      assert last == first + n && r == rest + if maxStart <= last <= lastcommitted then [Taken(es[n])] else [];
      if maxStart <= last <= lastcommitted {
        assert |rest| == last - lo;
      }
    }
  }

  /** From stage 2's first operation on, every latest report that is long enough has an entry. */
  lemma StageTwoInRange(ms: seq<DoViewChange>, maxStart: nat)
    requires ms != [] && Mergeable(ms, maxStart)
    ensures forall m, op :: m in ms && Stage2Start(ms, maxStart) <= op <= m.lastspeculative ==> Has(m, op)
  {
    var mc := MostCommitted(ms);
    CommittedSlice(mc.entries, maxStart, mc.lastcommitted);
    forall m, op | m in ms && Stage2Start(ms, maxStart) <= op <= m.lastspeculative
      ensures Has(m, op)
    {
      assert LongEnough(m, maxStart) && LongEnough(mc, maxStart);
    }
  }
}

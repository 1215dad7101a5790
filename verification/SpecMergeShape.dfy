/** What the merged log looks like: numbering, hash chain, no duplicates, nothing lost, nothing invented. */
module SpecMergeShape {
  import opened Numbers
  import opened Quorums
  import opened Logs
  import opened SpecMerge

  // Enough votes for two hashes means a common voter.

  lemma {:induction false} CountsOverlap(ms: seq<DoViewChange>, op1: nat, h1: Hash, op2: nat, h2: Hash)
    requires AllReported(ms)
    requires forall m :: m in ms ==> !(Votes(m, op1, h1) && Votes(m, op2, h2))
    ensures Count(ms, op1, h1) + Count(ms, op2, h2) <= |ms|
  {
    if ms != [] {
      var n := |ms| - 1;
      assert ms == ms[..n] + [ms[n]];
      CountsOverlap(ms[..n], op1, h1, op2, h2);
    }
  }

  /** Few enough reports that two supported hashes must share a reporter. */
  predicate Decisive(c: Config, ms: seq<DoViewChange>) {
    |ms| < 2 * Needed(c, ms)
  }

  /** A quorum of reports, and no more, is always decisive. */
  lemma QuorumDecisive(c: Config, dvcs: seq<DoViewChange>)
    requires ValidConfig(c)
    requires 0 < |dvcs| <= QuorumSize(c)
    ensures Decisive(c, Latest(dvcs))
  {
  }

  lemma SharedVoter(c: Config, ms: seq<DoViewChange>, op1: nat, h1: Hash, op2: nat, h2: Hash)
    returns (m: DoViewChange)
    requires AllReported(ms) && Decisive(c, ms)
    requires Supported(c, ms, op1, h1) && Supported(c, ms, op2, h2)
    ensures m in ms && Votes(m, op1, h1) && Votes(m, op2, h2)
  {
    if forall m :: m in ms ==> !(Votes(m, op1, h1) && Votes(m, op2, h2)) {
      CountsOverlap(ms, op1, h1, op2, h2);
    }
    m :| m in ms && Votes(m, op1, h1) && Votes(m, op2, h2);
  }

  /** At each operation at most one hash can reach the number of matching entries needed. */
  lemma AtMostOneSupported(c: Config, ms: seq<DoViewChange>, op: nat, h1: Hash, h2: Hash)
    requires AllReported(ms) && Decisive(c, ms)
    requires Supported(c, ms, op, h1) && Supported(c, ms, op, h2)
    ensures h1 == h2
  {
    var m := SharedVoter(c, ms, op, h1, op, h2);
  }

  function OneEntryReport(idx: nat, client: nat): (m: DoViewChange)
    ensures Reported(m) && LongEnough(m, 1)
  {
    var r := Request(client, 1, "");
    DoViewChange(idx, 0, 1, 0, [Entry(0, 1, Speculative, r, ComputeHash(EmptyHash, r), 0)])
  }

  function OneHash(client: nat): Hash {
    ComputeHash(EmptyHash, Request(client, 1, ""))
  }

  /** `n` reports of one operation each; the first `k` hold client 1's, the others client 2's. */
  function SplitReports(n: nat, k: nat): (ms: seq<DoViewChange>)
    ensures |ms| == n && Mergeable(ms, 1) && forall i :: 0 <= i < n ==> ms[i].replicaidx == i
  {
    if n == 0 then [] else SplitReports(n - 1, k) + [OneEntryReport(n - 1, if n - 1 < k then 1 else 2)]
  }

  lemma OneEntryVotes(idx: nat, client: nat)
    ensures forall h :: Votes(OneEntryReport(idx, client), 1, h) <==> h == OneHash(client)
  {
    assert At(OneEntryReport(idx, client), 1).hash == OneHash(client);
  }

  lemma CountAppend(ms: seq<DoViewChange>, m: DoViewChange, op: nat, h: Hash)
    requires AllReported(ms) && AllReported(ms + [m]) && Reported(m)
    ensures Count(ms + [m], op, h) == Count(ms, op, h) + if Votes(m, op, h) then 1 else 0
  {
    assert (ms + [m])[..|ms|] == ms;
  }

  lemma {:induction false} SplitCounts(n: nat, k: nat)
    ensures var ms := SplitReports(n, k);
            Count(ms, 1, OneHash(1)) == Min(n, k) && Count(ms, 1, OneHash(2)) == n - Min(n, k)
  {
    if n > 0 {
      var ms, client := SplitReports(n - 1, k), if n - 1 < k then 1 else 2;
      SplitCounts(n - 1, k);
      OneEntryVotes(n - 1, client);
      CountAppend(ms, OneEntryReport(n - 1, client), 1, OneHash(1));
      CountAppend(ms, OneEntryReport(n - 1, client), 1, OneHash(2));
    }
  }

  lemma BothSupported(c: Config, n: nat)
    requires n >= 2 * Min(RecoveryQuorum(c), n)
    ensures var ms := SplitReports(n, RecoveryQuorum(c));
            OneHash(1) != OneHash(2) && Supported(c, ms, 1, OneHash(1)) && Supported(c, ms, 1, OneHash(2))
  {
    SplitCounts(n, RecoveryQuorum(c));
  }

  ghost predicate OneSupported(c: Config, ms: seq<DoViewChange>, op: nat, h1: Hash, h2: Hash)
    requires AllReported(ms)
  {
    Supported(c, ms, op, h1) && Supported(c, ms, op, h2) ==> h1 == h2
  }

  /** Whether `n` reports always single out one hash depends on their number alone: they must be decisive. */
  lemma DecisiveExactly(c: Config, n: nat)
    ensures (forall ms, op: nat, h1, h2 :: |ms| == n && AllReported(ms) ==> OneSupported(c, ms, op, h1, h2))
            <==> n < 2 * Min(RecoveryQuorum(c), n)
  {
    forall ms, op: nat, h1, h2 | |ms| == n < 2 * Min(RecoveryQuorum(c), n) && AllReported(ms)
      ensures OneSupported(c, ms, op, h1, h2)
    {
      if Supported(c, ms, op, h1) && Supported(c, ms, op, h2) {
        AtMostOneSupported(c, ms, op, h1, h2);
      }
    }
    if n >= 2 * Min(RecoveryQuorum(c), n) {
      var ms := SplitReports(n, RecoveryQuorum(c));
      BothSupported(c, n);
      assert !OneSupported(c, ms, 1, OneHash(1), OneHash(2));
    }
  }

  /** With one report more than a quorum two different hashes can both be supported, for every even f. */
  lemma TwoSupportedBeyondQuorum(c: Config)
    requires ValidConfig(c) && c.f % 2 == 0
    ensures var dvcs := SplitReports(QuorumSize(c) + 1, RecoveryQuorum(c));
            && OneHash(1) != OneHash(2)
            && Supported(c, dvcs, 1, OneHash(1)) && Supported(c, dvcs, 1, OneHash(2))
  {
    assert 2 * RecoveryQuorum(c) == QuorumSize(c) + 1;
    BothSupported(c, QuorumSize(c) + 1);
  }

  // Support runs out once.

  lemma {:induction false} CountBack(ms: seq<DoViewChange>, op: nat, h: Hash)
    requires AllReported(ms) && h.Link? && forall m :: m in ms && Has(m, op + 1) ==> Has(m, op)
    ensures Count(ms, op + 1, h) <= Count(ms, op, h.prev)
  {
    if ms != [] {
      var n := |ms| - 1;
      assert ms[n] in ms;
      CountBack(ms[..n], op, h);
      if Votes(ms[n], op + 1, h) {
        HeldLinked(ms[n], op, At(ms[n], op).hash, h);
      }
    }
  }

  lemma {:induction false} VotedIsLink(ms: seq<DoViewChange>, op: nat, h: Hash)
    requires AllReported(ms) && Count(ms, op, h) > 0
    ensures h.Link?
  {
    var n := |ms| - 1;
    assert ms[n] in ms;
    if Votes(ms[n], op, h) {
      assert At(ms[n], op) in ms[n].entries;
    } else {
      VotedIsLink(ms[..n], op, h);
    }
  }

  /** Once an operation has no supported hash, no later one has. */
  lemma {:induction false} SupportEnds(c: Config, ms: seq<DoViewChange>, op: nat, later: nat)
    requires AllReported(ms) && op <= later && Unsupported(c, ms, op)
    requires forall m, i :: m in ms && op <= i <= m.lastspeculative ==> Has(m, i)
    ensures Unsupported(c, ms, later)
    decreases later
  {
    if op < later {
      SupportEnds(c, ms, op, later - 1);
      forall h
        ensures !Supported(c, ms, later, h)
      {
        assert !Supported(c, ms, later - 1, h);
        if Count(ms, later, h) > 0 {
          VotedIsLink(ms, later, h);
          CountBack(ms, later - 1, h);
          assert !Supported(c, ms, later - 1, h.prev);
        }
      }
    }
  }

  /** So stage 2, which stops at the first operation without one, takes every operation that has one. */
  lemma AgreedExactly(c: Config, ms: seq<DoViewChange>, maxStart: nat, run: seq<Entry>, op: nat)
    requires ms != [] && Mergeable(ms, maxStart) && AgreedRun(c, ms, Stage2Start(ms, maxStart), run)
    requires op >= Stage2Start(ms, maxStart)
    ensures op < Stage2Start(ms, maxStart) + |run| <==> !Unsupported(c, ms, op)
  {
    var next := Stage2Start(ms, maxStart);
    var end := next + |run|;
    if op < end {
      assert AgreedIn(c, ms, next, run, op - next);
    } else {
      StageTwoInRange(ms, maxStart);
      if end > MaxSpeculative(ms) {
        forall h
          ensures !Supported(c, ms, end, h)
        {
          NoVotesBeyond(ms, end, h);
        }
      }
      SupportEnds(c, ms, end, op);
    }
  }

  // The base of the merge: stages 1 and 2.

  /** The newest committed entry taken in stage 1 is supported like a speculative one. */
  ghost predicate CommittedSupported(c: Config, ms: seq<DoViewChange>, maxStart: nat)
    requires ms != [] && Mergeable(ms, maxStart)
  {
    var s := Stage1(ms, maxStart);
    s != [] ==> Supported(c, ms, s[|s| - 1].opnum, s[|s| - 1].hash)
  }

  ghost function Base(ms: seq<DoViewChange>, maxStart: nat, run: seq<Entry>): seq<Entry>
    requires ms != []
  {
    Stage1(ms, maxStart) + run
  }

  /** Stage 1 is a stretch of the most committed report. */
  lemma Stage1Entry(ms: seq<DoViewChange>, maxStart: nat, i: nat)
    requires ms != [] && Mergeable(ms, maxStart)
    requires i < |Stage1(ms, maxStart)|
    ensures var mc := MostCommitted(ms); var s := Stage1(ms, maxStart);
            && mc in ms && mc.entries != []
            && s[i].opnum == Max(maxStart, mc.entries[0].opnum) + i
            && Has(mc, s[i].opnum) && s[i] == Taken(At(mc, s[i].opnum))
            && s[|s| - 1].opnum == mc.lastcommitted
  {
    var mc := MostCommitted(ms);
    CommittedSlice(mc.entries, maxStart, mc.lastcommitted);
  }

  lemma Stage1Last(ms: seq<DoViewChange>, maxStart: nat, e: Entry)
    requires ms != [] && Mergeable(ms, maxStart)
    requires Stage1(ms, maxStart) != [] && e == Stage1(ms, maxStart)[|Stage1(ms, maxStart)| - 1]
    ensures MostCommitted(ms) in ms && e.opnum == MostCommitted(ms).lastcommitted
    ensures Votes(MostCommitted(ms), e.opnum, e.hash)
  {
    Stage1Entry(ms, maxStart, |Stage1(ms, maxStart)| - 1);
  }

  lemma ReportedEntry(m: DoViewChange, op: nat)
    requires Reported(m) && Has(m, op)
    ensures OwnHash(At(m, op))
  {
  }

  /** An entry taken in stage 2 comes from a report that holds it, and is supported. */
  lemma AgreedEntry(c: Config, ms: seq<DoViewChange>, op: nat, e: Entry) returns (m: DoViewChange)
    requires AllReported(ms) && ms != [] && AgreedAt(c, ms, op, e)
    ensures e.opnum == op && OwnHash(e) && Supported(c, ms, op, e.hash)
    ensures m in ms && Votes(m, op, e.hash) && e.request == At(m, op).request && e.view == At(m, op).view
  {
    m :| m in ms && Votes(m, op, e.hash) && FirstWith(ms, op, e.hash) == At(m, op);
    ReportedEntry(m, op);
  }

  lemma RunEntry(c: Config, ms: seq<DoViewChange>, next: nat, run: seq<Entry>, op: nat, e: Entry)
    returns (m: DoViewChange)
    requires AllReported(ms) && ms != [] && AgreedRun(c, ms, next, run)
    requires next <= op < next + |run| && e == run[op - next]
    ensures e.opnum == op && OwnHash(e) && Supported(c, ms, op, e.hash)
    ensures m in ms && Votes(m, op, e.hash) && e.request == At(m, op).request && e.view == At(m, op).view
  {
    assert AgreedIn(c, ms, next, run, op - next);
    m := AgreedEntry(c, ms, op, e);
  }

  lemma RunNumbered(c: Config, ms: seq<DoViewChange>, next: nat, run: seq<Entry>)
    requires AllReported(ms) && ms != [] && AgreedRun(c, ms, next, run)
    ensures Numbered(run, next)
  {
    forall k | 0 <= k < |run|
      ensures run[k].opnum == next + k
    {
      var m := RunEntry(c, ms, next, run, next + k, run[k]);
    }
  }

  /** Every base entry carries a hash that ends in its own request, held by a latest report there. */
  lemma BaseEntry(c: Config, ms: seq<DoViewChange>, maxStart: nat, run: seq<Entry>, i: nat) returns (m: DoViewChange)
    requires ms != [] && Mergeable(ms, maxStart)
    requires AgreedRun(c, ms, Stage2Start(ms, maxStart), run)
    requires i < |Base(ms, maxStart, run)|
    ensures var e := Base(ms, maxStart, run)[i];
            && m in ms && Votes(m, e.opnum, e.hash)
            && e.request == At(m, e.opnum).request && e.view == At(m, e.opnum).view && OwnHash(e)
            && (i >= |Stage1(ms, maxStart)| ==> Supported(c, ms, e.opnum, e.hash))
  {
    var s := Stage1(ms, maxStart);
    if i < |s| {
      Stage1Entry(ms, maxStart, i);
      m := MostCommitted(ms);
      ReportedEntry(m, s[i].opnum);
    } else {
      var next := Stage2Start(ms, maxStart);
      m := RunEntry(c, ms, next, run, next + i - |s|, run[i - |s|]);
    }
  }

  lemma BaseNumbered(c: Config, ms: seq<DoViewChange>, maxStart: nat, run: seq<Entry>)
    requires ms != [] && Mergeable(ms, maxStart)
    requires AgreedRun(c, ms, Stage2Start(ms, maxStart), run)
    ensures var b := Base(ms, maxStart, run); b != [] ==> Numbered(b, b[0].opnum)
  {
    var s := Stage1(ms, maxStart);
    RunNumbered(c, ms, Stage2Start(ms, maxStart), run);
    if s != [] {
      forall i | 0 <= i < |s|
        ensures s[i].opnum == s[0].opnum + i
      {
        Stage1Entry(ms, maxStart, 0);
        Stage1Entry(ms, maxStart, i);
      }
      Stage1Entry(ms, maxStart, |s| - 1);
    }
  }

  lemma HeldLinked(m: DoViewChange, op: nat, h1: Hash, h2: Hash)
    requires Reported(m) && Votes(m, op, h1) && Votes(m, op + 1, h2)
    ensures h2.Link? && h2.prev == h1
  {
    assert LinkedAt(m.entries, op + 1 - m.entries[0].opnum);
  }

  /** Two consecutive base entries are both held by one report. */
  lemma BaseSharedVoter(c: Config, ms: seq<DoViewChange>, maxStart: nat, run: seq<Entry>, i: nat)
    returns (v: DoViewChange)
    requires ms != [] && Mergeable(ms, maxStart)
    requires Decisive(c, ms) && CommittedSupported(c, ms, maxStart)
    requires AgreedRun(c, ms, Stage2Start(ms, maxStart), run)
    requires 0 < i < |Base(ms, maxStart, run)|
    ensures var b := Base(ms, maxStart, run);
            v in ms && Votes(v, b[i - 1].opnum, b[i - 1].hash) && Votes(v, b[i].opnum, b[i].hash)
  {
    var s := Stage1(ms, maxStart);
    if i < |s| {
      Stage1Entry(ms, maxStart, i);
      Stage1Entry(ms, maxStart, i - 1);
      v := MostCommitted(ms);
    } else {
      var b := Base(ms, maxStart, run);
      var m := BaseEntry(c, ms, maxStart, run, i);
      if i > |s| {
        var m' := BaseEntry(c, ms, maxStart, run, i - 1);
      } else {
        assert b[i - 1] == s[|s| - 1];
      }
      v := SharedVoter(c, ms, b[i - 1].opnum, b[i - 1].hash, b[i].opnum, b[i].hash);
    }
  }

  lemma BaseLinkedAt(c: Config, ms: seq<DoViewChange>, maxStart: nat, run: seq<Entry>, i: nat)
    requires ms != [] && Mergeable(ms, maxStart)
    requires Decisive(c, ms) && CommittedSupported(c, ms, maxStart)
    requires AgreedRun(c, ms, Stage2Start(ms, maxStart), run)
    requires 0 < i < |Base(ms, maxStart, run)|
    ensures LinkedAt(Base(ms, maxStart, run), i)
  {
    var b := Base(ms, maxStart, run);
    var m := BaseEntry(c, ms, maxStart, run, i);
    BaseNumbered(c, ms, maxStart, run);
    assert b[i].opnum == b[i - 1].opnum + 1;
    var v := BaseSharedVoter(c, ms, maxStart, run, i);
    LinkedByVoter(b, i, v);
  }

  lemma LinkedByVoter(b: seq<Entry>, i: nat, v: DoViewChange)
    requires 0 < i < |b| && b[i].opnum == b[i - 1].opnum + 1 && OwnHash(b[i])
    requires Reported(v) && Votes(v, b[i - 1].opnum, b[i - 1].hash) && Votes(v, b[i].opnum, b[i].hash)
    ensures LinkedAt(b, i)
  {
    HeldLinked(v, b[i - 1].opnum, b[i - 1].hash, b[i].hash);
  }

  /** Stages 1 and 2 yield one unbroken hash chain. */
  lemma BaseLinked(c: Config, ms: seq<DoViewChange>, maxStart: nat, run: seq<Entry>)
    requires ms != [] && Mergeable(ms, maxStart)
    requires Decisive(c, ms) && CommittedSupported(c, ms, maxStart)
    requires AgreedRun(c, ms, Stage2Start(ms, maxStart), run)
    ensures var b := Base(ms, maxStart, run); b != [] ==> Numbered(b, b[0].opnum)
    ensures Linked(Base(ms, maxStart, run))
  {
    BaseNumbered(c, ms, maxStart, run);
    var b := Base(ms, maxStart, run);
    forall i | 0 < i < |b|
      ensures LinkedAt(b, i)
    {
      BaseLinkedAt(c, ms, maxStart, run, i);
    }
  }

  // Stage 3 keeps the shape and takes everything.

  ghost predicate Shaped(a: Acc) {
    && a.seen == Ids(a.out)
    && (a.out != [] ==> Numbered(a.out, a.out[0].opnum) && OwnHash(a.out[0]))
    && Linked(a.out)
    && DistinctIds(a.out)
  }

  lemma ConsiderShaped(a: Acc, newView: nat, e: Entry)
    requires Shaped(a)
    ensures Shaped(Consider(a, newView, e))
    ensures a.out <= Consider(a, newView, e).out && a.seen <= Consider(a, newView, e).seen
    ensures Id(e.request) in Consider(a, newView, e).seen
  {
    var r := Consider(a, newView, e);
    if Id(e.request) !in a.seen {
      var n := |a.out|;
      IdsAppend(a.out, r.out[n]);
      forall i | 0 < i < |r.out|
        ensures LinkedAt(r.out, i)
      {
        if i < n {
          assert LinkedAt(a.out, i);
        }
      }
      forall i, j | 0 <= i < j < |r.out|
        ensures Id(r.out[i].request) != Id(r.out[j].request)
      {
        assert r.out[i] in a.out;
      }
    }
  }

  lemma {:induction false} ConsiderRangeShaped(a: Acc, newView: nat, m: DoViewChange, lo: nat, hi: nat)
    requires Reported(m) && forall i :: lo <= i < hi ==> Has(m, i)
    requires Shaped(a)
    ensures Shaped(ConsiderRange(a, newView, m, lo, hi))
    ensures a.out <= ConsiderRange(a, newView, m, lo, hi).out
    ensures forall i :: lo <= i < hi ==> Id(At(m, i).request) in ConsiderRange(a, newView, m, lo, hi).seen
    decreases hi
  {
    if lo < hi {
      ConsiderRangeShaped(a, newView, m, lo, hi - 1);
      var mid := ConsiderRange(a, newView, m, lo, hi - 1);
      ConsiderShaped(mid, newView, At(m, hi - 1));
      assert ConsiderRange(a, newView, m, lo, hi) == Consider(mid, newView, At(m, hi - 1));
    }
  }

  lemma SeenGrows(a: Acc, b: Acc)
    requires Shaped(a) && Shaped(b) && a.out <= b.out
    ensures a.seen <= b.seen
  {
  }

  /** Every uncommitted operation of a report, from maxStart on. */
  ghost predicate TakesAll(m: DoViewChange, maxStart: nat, seen: set<RequestId>)
    requires Reported(m) && LongEnough(m, maxStart)
  {
    forall i :: LeftoverStart(m, maxStart) <= i <= m.lastspeculative ==> Id(At(m, i).request) in seen
  }

  lemma ReportShaped(a: Acc, newView: nat, maxStart: nat, m: DoViewChange)
    requires Reported(m) && LongEnough(m, maxStart) && Shaped(a)
    ensures var r := ConsiderRange(a, newView, m, LeftoverStart(m, maxStart), m.lastspeculative + 1);
            Shaped(r) && a.out <= r.out && a.seen <= r.seen && TakesAll(m, maxStart, r.seen)
  {
    var lo, hi := LeftoverStart(m, maxStart), m.lastspeculative + 1;
    ConsiderRangeShaped(a, newView, m, lo, hi);
    SeenGrows(a, ConsiderRange(a, newView, m, lo, hi));
  }

  lemma {:induction false} ConsiderAllShaped(a: Acc, newView: nat, maxStart: nat, ms: seq<DoViewChange>)
    requires Mergeable(ms, maxStart)
    requires Shaped(a)
    ensures Shaped(ConsiderAll(a, newView, maxStart, ms))
    ensures a.out <= ConsiderAll(a, newView, maxStart, ms).out
    ensures forall m :: m in ms ==> TakesAll(m, maxStart, ConsiderAll(a, newView, maxStart, ms).seen)
  {
    if ms != [] {
      var n := |ms| - 1;
      assert ms == ms[..n] + [ms[n]];
      ConsiderAllShaped(a, newView, maxStart, ms[..n]);
      var mid := ConsiderAll(a, newView, maxStart, ms[..n]);
      var r := ConsiderAll(a, newView, maxStart, ms);
      assert ms[n] in ms && Reported(ms[n]) && LongEnough(ms[n], maxStart);
      ReportShaped(mid, newView, maxStart, ms[n]);
      forall m | m in ms
        ensures TakesAll(m, maxStart, r.seen)
      {
        if m in ms[..n] {
          TakesAllGrows(m, maxStart, mid.seen, r.seen);
        }
      }
    }
  }

  lemma TakesAllGrows(m: DoViewChange, maxStart: nat, a: set<RequestId>, b: set<RequestId>)
    requires Reported(m) && LongEnough(m, maxStart) && TakesAll(m, maxStart, a) && a <= b
    ensures TakesAll(m, maxStart, b)
  {
  }

  /** Each sender's log holds no request twice. */
  predicate NoDuplicates(ms: seq<DoViewChange>) {
    forall m :: m in ms ==> forall e :: e in m.entries ==> NoRepeats(e.hash)
  }

  lemma BaseShaped(c: Config, ms: seq<DoViewChange>, maxStart: nat, run: seq<Entry>)
    requires ms != [] && Mergeable(ms, maxStart) && NoDuplicates(ms)
    requires Decisive(c, ms) && CommittedSupported(c, ms, maxStart)
    requires AgreedRun(c, ms, Stage2Start(ms, maxStart), run)
    ensures var b := Base(ms, maxStart, run); Shaped(Acc(b, Ids(b)))
  {
    var b := Base(ms, maxStart, run);
    BaseLinked(c, ms, maxStart, run);
    if b != [] {
      var m0 := BaseEntry(c, ms, maxStart, run, 0);
      var m := BaseEntry(c, ms, maxStart, run, |b| - 1);
      assert At(m, b[|b| - 1].opnum) in m.entries;
      NoRepeatsDistinct(b);
    }
  }

  /**
   * The merged log: numbered without gaps, one hash chain, no request twice, and every operation a
   * latest-view report has not committed, from maxStart on, is in it.
   */
  lemma MergeShape(c: Config, newView: nat, maxStart: nat, ms: seq<DoViewChange>, out: seq<Entry>)
    requires ms != [] && Mergeable(ms, maxStart) && NoDuplicates(ms)
    requires Decisive(c, ms) && CommittedSupported(c, ms, maxStart)
    requires IsMerge(c, newView, maxStart, ms, out)
    ensures out != [] ==> Numbered(out, out[0].opnum)
    ensures Linked(out)
    ensures DistinctIds(out)
    ensures forall m :: m in ms ==> TakesAll(m, maxStart, Ids(out))
    ensures Stage1(ms, maxStart) <= out
  {
    var run :| MergedWith(c, newView, maxStart, ms, run, out);
    var b := Base(ms, maxStart, run);
    BaseShaped(c, ms, maxStart, run);
    ConsiderAllShaped(Acc(b, Ids(b)), newView, maxStart, ms);
  }

  // Views and statuses.

  predicate ViewsRise(es: seq<Entry>) {
    forall i :: 0 < i < |es| ==> es[i - 1].view <= es[i].view
  }

  predicate SpeculativeLast(es: seq<Entry>) {
    forall i :: 0 < i < |es| && es[i - 1].state == Speculative ==> es[i].state == Speculative
  }

  ghost predicate SameView(m: DoViewChange, m': DoViewChange, op: nat)
    requires Reported(m) && Reported(m')
  {
    Has(m, op) && Has(m', op) && At(m, op).hash == At(m', op).hash ==> At(m, op).view == At(m', op).view
  }

  /** Views never fall along a report, none is above the new one, and equal entries were made in one view. */
  ghost predicate ViewsAgree(ms: seq<DoViewChange>, newView: nat)
    requires AllReported(ms)
  {
    && (forall m :: m in ms ==> ViewsRise(m.entries) && forall e :: e in m.entries ==> e.view <= newView)
    && (forall m, m', op: nat :: m in ms && m' in ms ==> SameView(m, m', op))
  }

  predicate Tidy(es: seq<Entry>, newView: nat) {
    ViewsRise(es) && SpeculativeLast(es) && forall e :: e in es ==> e.view <= newView
  }

  lemma BaseViews(c: Config, ms: seq<DoViewChange>, newView: nat, maxStart: nat, run: seq<Entry>, i: nat)
    requires ms != [] && Mergeable(ms, maxStart) && ViewsAgree(ms, newView)
    requires Decisive(c, ms) && CommittedSupported(c, ms, maxStart)
    requires AgreedRun(c, ms, Stage2Start(ms, maxStart), run) && 0 < i < |Base(ms, maxStart, run)|
    ensures Base(ms, maxStart, run)[i - 1].view <= Base(ms, maxStart, run)[i].view
  {
    var b := Base(ms, maxStart, run);
    var m := BaseEntry(c, ms, maxStart, run, i - 1);
    var m' := BaseEntry(c, ms, maxStart, run, i);
    var v := BaseSharedVoter(c, ms, maxStart, run, i);
    BaseNumbered(c, ms, maxStart, run);
    assert SameView(m, v, b[i - 1].opnum) && SameView(m', v, b[i].opnum);
  }

  lemma BaseStates(c: Config, ms: seq<DoViewChange>, maxStart: nat, run: seq<Entry>)
    requires ms != [] && Mergeable(ms, maxStart) && AgreedRun(c, ms, Stage2Start(ms, maxStart), run)
    ensures SpeculativeLast(Base(ms, maxStart, run))
  {
    var s := Stage1(ms, maxStart);
    forall i | 0 <= i < |s|
      ensures s[i].state == Committed
    {
      Stage1Entry(ms, maxStart, i);
    }
    forall k | 0 <= k < |run|
      ensures run[k].state == Speculative
    {
      assert AgreedIn(c, ms, Stage2Start(ms, maxStart), run, k);
    }
  }

  lemma BaseTidy(c: Config, ms: seq<DoViewChange>, newView: nat, maxStart: nat, run: seq<Entry>)
    requires ms != [] && Mergeable(ms, maxStart) && ViewsAgree(ms, newView)
    requires Decisive(c, ms) && CommittedSupported(c, ms, maxStart)
    requires AgreedRun(c, ms, Stage2Start(ms, maxStart), run)
    ensures Tidy(Base(ms, maxStart, run), newView)
  {
    var b := Base(ms, maxStart, run);
    BaseStates(c, ms, maxStart, run);
    forall i | 0 < i < |b|
      ensures b[i - 1].view <= b[i].view
    {
      BaseViews(c, ms, newView, maxStart, run, i);
    }
    forall e | e in b
      ensures e.view <= newView
    {
      var i :| 0 <= i < |b| && b[i] == e;
      var m := BaseEntry(c, ms, maxStart, run, i);
      assert At(m, e.opnum) in m.entries;
    }
  }

  lemma {:induction false} ConsiderRangeTidy(a: Acc, newView: nat, m: DoViewChange, lo: nat, hi: nat)
    requires Reported(m) && (forall i :: lo <= i < hi ==> Has(m, i)) && Tidy(a.out, newView)
    ensures Tidy(ConsiderRange(a, newView, m, lo, hi).out, newView)
    decreases hi
  {
    if lo < hi {
      ConsiderRangeTidy(a, newView, m, lo, hi - 1);
    }
  }

  lemma {:induction false} ConsiderAllTidy(a: Acc, newView: nat, maxStart: nat, ms: seq<DoViewChange>)
    requires Mergeable(ms, maxStart) && Tidy(a.out, newView)
    ensures Tidy(ConsiderAll(a, newView, maxStart, ms).out, newView)
  {
    if ms != [] {
      var n := |ms| - 1;
      ConsiderAllTidy(a, newView, maxStart, ms[..n]);
      ConsiderRangeTidy(ConsiderAll(a, newView, maxStart, ms[..n]), newView, ms[n],
                        LeftoverStart(ms[n], maxStart), ms[n].lastspeculative + 1);
    }
  }

  /** Along the merged log views never fall and nothing committed follows something speculative. */
  lemma MergeTidy(c: Config, newView: nat, maxStart: nat, ms: seq<DoViewChange>, out: seq<Entry>)
    requires ms != [] && Mergeable(ms, maxStart) && ViewsAgree(ms, newView)
    requires Decisive(c, ms) && CommittedSupported(c, ms, maxStart)
    requires IsMerge(c, newView, maxStart, ms, out)
    ensures ViewsRise(out) && SpeculativeLast(out)
  {
    var run :| MergedWith(c, newView, maxStart, ms, run, out);
    var b := Base(ms, maxStart, run);
    BaseTidy(c, ms, newView, maxStart, run);
    ConsiderAllTidy(Acc(b, Ids(b)), newView, maxStart, ms);
  }

  // Nothing is invented.

  ghost predicate FromReports(ms: seq<DoViewChange>, r: Request)
    requires AllReported(ms)
  {
    exists m, op :: m in ms && Has(m, op) && At(m, op).request == r
  }

  ghost predicate AllFromReports(ms: seq<DoViewChange>, es: seq<Entry>)
    requires AllReported(ms)
  {
    forall e :: e in es ==> FromReports(ms, e.request)
  }

  lemma {:induction false} ConsiderRangeSound(ms: seq<DoViewChange>, a: Acc, newView: nat, m: DoViewChange, lo: nat,
                                              hi: nat)
    requires AllReported(ms) && m in ms && forall i :: lo <= i < hi ==> Has(m, i)
    requires AllFromReports(ms, a.out)
    ensures AllFromReports(ms, ConsiderRange(a, newView, m, lo, hi).out)
    decreases hi
  {
    if lo < hi {
      ConsiderRangeSound(ms, a, newView, m, lo, hi - 1);
      assert FromReports(ms, At(m, hi - 1).request);
    }
  }

  lemma {:induction false} ConsiderAllSound(all: seq<DoViewChange>, a: Acc, newView: nat, maxStart: nat,
                                            ms: seq<DoViewChange>)
    requires AllReported(all) && Mergeable(ms, maxStart) && forall m :: m in ms ==> m in all
    requires AllFromReports(all, a.out)
    ensures AllFromReports(all, ConsiderAll(a, newView, maxStart, ms).out)
    decreases |ms|
  {
    if ms != [] {
      var n := |ms| - 1;
      ConsiderAllSound(all, a, newView, maxStart, ms[..n]);
      ConsiderRangeSound(all, ConsiderAll(a, newView, maxStart, ms[..n]), newView, ms[n],
                         LeftoverStart(ms[n], maxStart), ms[n].lastspeculative + 1);
    }
  }

  /** Every request in the merged log was reported by a latest-view replica. */
  lemma MergeSound(c: Config, newView: nat, maxStart: nat, ms: seq<DoViewChange>, out: seq<Entry>)
    requires ms != [] && Mergeable(ms, maxStart) && IsMerge(c, newView, maxStart, ms, out)
    ensures AllFromReports(ms, out)
  {
    var run :| MergedWith(c, newView, maxStart, ms, run, out);
    var b := Base(ms, maxStart, run);
    forall e | e in b
      ensures FromReports(ms, e.request)
    {
      var i :| 0 <= i < |b| && b[i] == e;
      var m := BaseEntry(c, ms, maxStart, run, i);
    }
    ConsiderAllSound(ms, Acc(b, Ids(b)), newView, maxStart, ms);
  }

  // Where the merged log starts.

  lemma {:induction false} ConsiderRangeFirst(a: Acc, newView: nat, m: DoViewChange, lo: nat, hi: nat)
    requires Reported(m) && forall i :: lo <= i < hi ==> Has(m, i)
    requires a.out != [] ==> a.out[0].opnum == 1
    ensures var out := ConsiderRange(a, newView, m, lo, hi).out; out != [] ==> out[0].opnum == 1
    decreases hi
  {
    if lo < hi {
      ConsiderRangeFirst(a, newView, m, lo, hi - 1);
    }
  }

  lemma {:induction false} ConsiderAllFirst(a: Acc, newView: nat, maxStart: nat, ms: seq<DoViewChange>)
    requires Mergeable(ms, maxStart)
    requires a.out != [] ==> a.out[0].opnum == 1
    ensures var out := ConsiderAll(a, newView, maxStart, ms).out; out != [] ==> out[0].opnum == 1
  {
    if ms != [] {
      var n := |ms| - 1;
      ConsiderAllFirst(a, newView, maxStart, ms[..n]);
      ConsiderRangeFirst(ConsiderAll(a, newView, maxStart, ms[..n]), newView, ms[n],
                         LeftoverStart(ms[n], maxStart), ms[n].lastspeculative + 1);
    }
  }

  lemma {:induction false} NoVotesBeyond(ms: seq<DoViewChange>, op: nat, h: Hash)
    requires AllReported(ms) && op > MaxSpeculative(ms)
    ensures Count(ms, op, h) == 0
  {
    if ms != [] {
      NoVotesBeyond(ms[..|ms| - 1], op, h);
    }
  }

  /**
   * The merged log begins at or after maxStart exactly when something is taken there: otherwise the
   * leftovers are renumbered from operation 1.
   */
  lemma MergeStart(c: Config, newView: nat, maxStart: nat, ms: seq<DoViewChange>, out: seq<Entry>)
    requires ms != [] && Mergeable(ms, maxStart) && IsMerge(c, newView, maxStart, ms, out) && out != []
    ensures out[0].opnum >= maxStart <==>
              maxStart <= 1 || Stage1(ms, maxStart) != [] || !Unsupported(c, ms, maxStart)
  {
    var run :| MergedWith(c, newView, maxStart, ms, run, out);
    var b := Base(ms, maxStart, run);
    if b == [] {
      ConsiderAllFirst(Acc(b, Ids(b)), newView, maxStart, ms);
      if maxStart > 1 && maxStart > MaxSpeculative(ms) {
        forall h
          ensures !Supported(c, ms, maxStart, h)
        {
          NoVotesBeyond(ms, maxStart, h);
        }
      }
    } else {
      BaseStartsAtOrAfter(c, ms, maxStart, run);
      ConsiderAllPrefix(Acc(b, Ids(b)), newView, maxStart, ms);
    }
  }

  lemma BaseStartsAtOrAfter(c: Config, ms: seq<DoViewChange>, maxStart: nat, run: seq<Entry>)
    requires ms != [] && Mergeable(ms, maxStart) && AgreedRun(c, ms, Stage2Start(ms, maxStart), run)
    requires Base(ms, maxStart, run) != []
    ensures Base(ms, maxStart, run)[0].opnum >= maxStart
    ensures Stage1(ms, maxStart) != [] || maxStart <= 1 || !Unsupported(c, ms, maxStart)
  {
    if Stage1(ms, maxStart) != [] {
      Stage1Entry(ms, maxStart, 0);
    } else {
      var next := Stage2Start(ms, maxStart);
      var m := RunEntry(c, ms, next, run, next, run[0]);
    }
  }

  lemma {:induction false} ConsiderRangePrefix(a: Acc, newView: nat, m: DoViewChange, lo: nat, hi: nat)
    requires Reported(m) && forall i :: lo <= i < hi ==> Has(m, i)
    ensures a.out <= ConsiderRange(a, newView, m, lo, hi).out
    decreases hi
  {
    if lo < hi {
      ConsiderRangePrefix(a, newView, m, lo, hi - 1);
    }
  }

  /** Stage 3 only appends. */
  lemma {:induction false} ConsiderAllPrefix(a: Acc, newView: nat, maxStart: nat, ms: seq<DoViewChange>)
    requires Mergeable(ms, maxStart)
    ensures a.out <= ConsiderAll(a, newView, maxStart, ms).out
  {
    if ms != [] {
      var n := |ms| - 1;
      ConsiderAllPrefix(a, newView, maxStart, ms[..n]);
      ConsiderRangePrefix(ConsiderAll(a, newView, maxStart, ms[..n]), newView, ms[n],
                          LeftoverStart(ms[n], maxStart), ms[n].lastspeculative + 1);
    }
  }
}

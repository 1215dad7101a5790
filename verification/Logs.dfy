/**
 * The replicated log: a vector of entries numbered consecutively from `start`, optionally chained by
 * a hash over the client and request numbers, with truncation, transfer and installation.
 */
module Logs {

  datatype Option<+T> = None | Some(value: T)

  datatype Request = Request(clientid: nat, clientreqid: nat, op: string)

  type RequestId = (nat, nat)

  function Id(r: Request): RequestId {
    (r.clientid, r.clientreqid)
  }

  datatype EntryState = Committed | Prepared | Speculative | Received | Noop

  /**
   * SHA-1 over (previous hash, client, request number), treated as collision free: a hash is the
   * term that was hashed.
   */
  datatype Hash = EmptyHash | Link(prev: Hash, id: RequestId)

  function ComputeHash(lastHash: Hash, r: Request): Hash {
    Link(lastHash, Id(r))
  }

  datatype Entry = Entry(view: nat, opnum: nat, state: EntryState, request: Request, hash: Hash,
                         prevClientReqOpnum: nat)

  /** Same operation under the same viewstamp; status and bookkeeping may differ. */
  predicate SameOp(a: Entry, b: Entry) {
    a.view == b.view && a.opnum == b.opnum && a.request == b.request
  }

  predicate Numbered(es: seq<Entry>, first: nat) {
    forall i :: 0 <= i < |es| ==> es[i].opnum == first + i
  }

  /** The hash up to and including the i-th entry, where `h0` precedes the first. */
  function HashUpTo(h0: Hash, es: seq<Entry>, i: nat): Hash
    requires i <= |es|
  {
    if i == 0 then h0 else es[i - 1].hash
  }

  predicate ExtendsHash(h: Hash, e: Entry) {
    e.hash == ComputeHash(h, e.request)
  }

  predicate ChainedAt(h0: Hash, es: seq<Entry>, i: nat)
    requires i < |es|
  {
    ExtendsHash(HashUpTo(h0, es, i), es[i])
  }

  /** Each entry's hash extends the hash before it; `h0` precedes the first entry. */
  predicate Chained(h0: Hash, es: seq<Entry>) {
    forall i :: 0 <= i < |es| ==> ChainedAt(h0, es, i)
  }

  predicate LinkedAt(es: seq<Entry>, i: nat)
    requires 0 < i < |es|
  {
    ExtendsHash(es[i - 1].hash, es[i])
  }

  /** Chained without saying what precedes the first entry: a stretch cut out of a log. */
  predicate Linked(es: seq<Entry>) {
    forall i :: 0 < i < |es| ==> LinkedAt(es, i)
  }

  /** Equal hashes at one operation force equal hashes, hence equal requests, before it. */
  lemma {:induction false} HashFixesHistory(a: seq<Entry>, b: seq<Entry>, i: nat, j: nat, back: nat)
    requires Linked(a) && Linked(b)
    requires i < |a| && j < |b| && back <= i && back <= j
    requires a[i].hash == b[j].hash
    ensures a[i - back].hash == b[j - back].hash
    ensures back < i && back < j ==> Id(a[i - back].request) == Id(b[j - back].request)
    decreases back
  {
    if back > 0 {
      HashFixesHistory(a, b, i, j, back - 1);
      assert LinkedAt(a, i - (back - 1)) && LinkedAt(b, j - (back - 1));
    }
    if back < i && back < j {
      assert LinkedAt(a, i - back) && LinkedAt(b, j - back);
    }
  }

  /** The requests a hash covers. */
  function History(h: Hash): set<RequestId> {
    if h.EmptyHash? then {} else History(h.prev) + {h.id}
  }

  /** No request occurs twice in the log that a hash stands for. */
  predicate NoRepeats(h: Hash) {
    h.Link? ==> h.id !in History(h.prev) && NoRepeats(h.prev)
  }

  predicate DistinctIds(es: seq<Entry>) {
    forall i, j :: 0 <= i < j < |es| ==> Id(es[i].request) != Id(es[j].request)
  }

  /** An entry's hash ends in its own request. */
  predicate OwnHash(e: Entry) {
    e.hash.Link? && e.hash.id == Id(e.request)
  }

  /** A linked stretch whose last hash covers no request twice holds no request twice. */
  lemma {:induction false} NoRepeatsDistinct(es: seq<Entry>)
    requires es != [] && Linked(es) && OwnHash(es[0])
    requires NoRepeats(es[|es| - 1].hash)
    ensures DistinctIds(es)
    ensures forall e :: e in es ==> Id(e.request) in History(es[|es| - 1].hash)
    decreases |es|
  {
    var n := |es| - 1;
    if n > 0 {
      assert LinkedAt(es, n);
      forall i | 0 < i < n
        ensures LinkedAt(es[..n], i)
      {
        assert LinkedAt(es, i);
      }
      assert es[..n][n - 1] == es[n - 1];
      NoRepeatsDistinct(es[..n]);
      forall i, j | 0 <= i < j < |es|
        ensures Id(es[i].request) != Id(es[j].request)
      {
        if j < n {
          assert es[i] == es[..n][i] && es[j] == es[..n][j];
        } else {
          assert es[i] in es[..n];
        }
      }
      assert es == es[..n] + [es[n]];
    }
  }

  lemma ChainedUpdate(h0: Hash, es: seq<Entry>, i: nat, e: Entry)
    requires Chained(h0, es)
    requires i < |es| && e.hash == es[i].hash && Id(e.request) == Id(es[i].request)
    ensures Chained(h0, es[i := e])
  {
    var fs := es[i := e];
    forall k | 0 <= k < |fs|
      ensures ChainedAt(h0, fs, k)
    {
      assert ChainedAt(h0, es, k);
    }
  }

  lemma ChainedAppend(h0: Hash, es: seq<Entry>, e: Entry)
    requires Chained(h0, es)
    requires ExtendsHash(HashUpTo(h0, es, |es|), e)
    ensures Chained(h0, es + [e])
  {
    forall k | 0 <= k < |es + [e]|
      ensures ChainedAt(h0, es + [e], k)
    {
      assert k < |es| ==> ChainedAt(h0, es, k);
    }
  }

  lemma ChainedPrefix(h0: Hash, es: seq<Entry>, k: nat)
    requires Chained(h0, es) && k <= |es|
    ensures Chained(h0, es[..k])
  {
    forall i | 0 <= i < k
      ensures ChainedAt(h0, es[..k], i)
    {
      assert ChainedAt(h0, es, i);
    }
  }

  lemma ChainedSuffixLinked(h0: Hash, es: seq<Entry>, k: nat)
    requires Chained(h0, es) && k <= |es|
    ensures Linked(es[k..])
  {
    forall i | 0 < i < |es[k..]|
      ensures LinkedAt(es[k..], i)
    {
      assert ChainedAt(h0, es, k + i);
    }
  }

  function Lookup(es: seq<Entry>, start: nat, opnum: nat): Option<Entry> {
    if es == [] || opnum < start || opnum - start > |es| - 1 then None
    else Some(es[opnum - start])
  }

  /** Whether the log holds the listed operation under the listed view. */
  predicate Agrees(es: seq<Entry>, start: nat, e: Entry) {
    Lookup(es, start, e.opnum).Some? && Lookup(es, start, e.opnum).value.view == e.view
  }

  /** The first position of `list` whose entry is absent from the log or present under another view. */
  function Divergence(es: seq<Entry>, start: nat, list: seq<Entry>, from: nat): (d: nat)
    requires from <= |list|
    ensures from <= d <= |list|
    ensures forall k {:trigger Agrees(es, start, list[k])} :: from <= k < d ==> Agrees(es, start, list[k])
    ensures d < |list| ==> !Agrees(es, start, list[d])
    decreases |list| - from
  {
    if from == |list| || !Agrees(es, start, list[from]) then from else Divergence(es, start, list, from + 1)
  }

  /** A view and an operation number name one request across the log and `list`. */
  predicate ViewstampsNameRequests(es: seq<Entry>, start: nat, list: seq<Entry>) {
    forall k {:trigger NamesRequest(es, start, list[k])} :: 0 <= k < |list| ==> NamesRequest(es, start, list[k])
  }

  predicate NamesRequest(es: seq<Entry>, start: nat, e: Entry) {
    Agrees(es, start, e) ==> Lookup(es, start, e.opnum).value.request == e.request
  }

  predicate Extends(before: seq<Entry>, after: seq<Entry>, list: seq<Entry>) {
    && before <= after && |after| == |before| + |list|
    && forall k :: 0 <= k < |list| ==> SameOp(after[|before| + k], list[k])
  }

  /** From the first entry of `list` on, the log holds the operations of `list` and nothing else. */
  predicate EndsWith(es: seq<Entry>, start: nat, list: seq<Entry>)
    requires list != []
  {
    && start <= list[0].opnum
    && |es| == list[0].opnum - start + |list|
    && forall k :: 0 <= k < |list| ==> SameOp(es[list[0].opnum - start + k], list[k])
  }

  /** Where log and list agree on views they hold the same operations. */
  lemma AgreedPrefix(es: seq<Entry>, start: nat, list: seq<Entry>, k: nat)
    requires Numbered(es, start)
    requires list != [] && Numbered(list, list[0].opnum) && start <= list[0].opnum
    requires k < Divergence(es, start, list, 0)
    requires ViewstampsNameRequests(es, start, list)
    ensures list[0].opnum - start + k < |es|
    ensures SameOp(es[list[0].opnum - start + k], list[k])
  {
    assert Agrees(es, start, list[k]);
    assert NamesRequest(es, start, list[k]);
  }

  lemma UndivergedEnds(es: seq<Entry>, start: nat, list: seq<Entry>)
    requires Numbered(es, start)
    requires list != [] && Numbered(list, list[0].opnum) && start <= list[0].opnum
    requires Divergence(es, start, list, 0) == |list|
    requires ViewstampsNameRequests(es, start, list)
    ensures EndsWith(es, start, list) <==> start + |es| <= list[0].opnum + |list|
  {
    forall k | 0 <= k < |list|
      ensures list[0].opnum - start + k < |es| && SameOp(es[list[0].opnum - start + k], list[k])
    {
      AgreedPrefix(es, start, list, k);
    }
    AgreedPrefix(es, start, list, |list| - 1);
  }

  lemma DivergedEnds(es: seq<Entry>, start: nat, list: seq<Entry>, d: nat, out: seq<Entry>)
    requires Numbered(es, start)
    requires list != [] && Numbered(list, list[0].opnum) && start <= list[0].opnum
    requires d == Divergence(es, start, list, 0) < |list|
    requires list[0].opnum - start + d <= |es|
    requires Extends(es[..list[0].opnum - start + d], out, list[d..])
    requires ViewstampsNameRequests(es, start, list)
    ensures EndsWith(out, start, list)
  {
    var base := list[0].opnum - start;
    assert |out| == base + |list|;
    forall k | 0 <= k < |list|
      ensures SameOp(out[base + k], list[k])
    {
      DivergedAt(es, start, list, d, out, k);
    }
  }

  lemma DivergedAt(es: seq<Entry>, start: nat, list: seq<Entry>, d: nat, out: seq<Entry>, k: nat)
    requires Numbered(es, start) && k < |list|
    requires Numbered(list, list[0].opnum) && start <= list[0].opnum
    requires d == Divergence(es, start, list, 0) < |list| && list[0].opnum - start + d <= |es|
    requires Extends(es[..list[0].opnum - start + d], out, list[d..])
    requires ViewstampsNameRequests(es, start, list)
    ensures list[0].opnum - start + k < |out| && SameOp(out[list[0].opnum - start + k], list[k])
  {
    var base := list[0].opnum - start;
    if k < d {
      AgreedPrefix(es, start, list, k);
      ExtendsBefore(es[..base + d], out, list[d..], base + k);
    } else {
      ExtendsAt(es[..base + d], out, list[d..], k - d);
    }
  }

  lemma ExtendsBefore(before: seq<Entry>, after: seq<Entry>, list: seq<Entry>, k: nat)
    requires Extends(before, after, list) && k < |before|
    ensures after[k] == before[k]
  {
  }

  lemma ExtendsAt(before: seq<Entry>, after: seq<Entry>, list: seq<Entry>, k: nat)
    requires Extends(before, after, list) && k < |list|
    ensures SameOp(after[|before| + k], list[k])
  {
  }

  class Log {
    const useHash: bool
    const start: nat
    const initialHash: Hash
    var entries: seq<Entry>

    ghost predicate Valid()
      reads this
    {
      && start >= 1
      && Numbered(entries, start)
      && (useHash ==> Chained(initialHash, entries))
    }

    constructor (useHash: bool, start: nat, initialHash: Hash)
      requires start >= 1
      requires start == 1 ==> initialHash == EmptyHash
      ensures Valid() && entries == []
      ensures this.useHash == useHash && this.start == start && this.initialHash == initialHash
    {
      this.useHash := useHash;
      this.start := start;
      this.initialHash := initialHash;
      entries := [];
    }

    function LastOpnum(): (r: nat)
      reads this
      requires Valid()
      ensures r + 1 == start + |entries|
    {
      if entries == [] then start - 1 else entries[|entries| - 1].opnum
    }

    function LastHash(): Hash
      reads this
    {
      if entries == [] then initialHash else entries[|entries| - 1].hash
    }

    /** The entry numbered `opnum`, exactly when the log holds one. */
    function Find(opnum: nat): (r: Option<Entry>)
      reads this
      requires Valid()
      ensures r.Some? <==> start <= opnum <= LastOpnum()
      ensures r.Some? ==> r.value.opnum == opnum && r.value in entries
    {
      Lookup(entries, start, opnum)
    }

    method Append(e: Entry)
      requires Valid()
      requires e.opnum == LastOpnum() + 1
      modifies this
      ensures Valid()
      ensures entries == old(entries) + [if useHash then e.(hash := ComputeHash(old(LastHash()), e.request)) else e]
    {
      var prevHash := LastHash();
      if useHash {
        ChainedAppend(initialHash, entries, e.(hash := ComputeHash(prevHash, e.request)));
      }
      entries := entries + [if useHash then e.(hash := ComputeHash(prevHash, e.request)) else e];
    }

    method SetStatus(op: nat, state: EntryState) returns (found: bool)
      requires Valid()
      modifies this
      ensures Valid()
      ensures found <==> start <= op <= old(LastOpnum())
      ensures entries == if found then old(entries)[op - start := old(entries)[op - start].(state := state)]
                                  else old(entries)
    {
      var e := Find(op);
      found := e.Some?;
      if found {
        if useHash {
          ChainedUpdate(initialHash, entries, op - start, e.value.(state := state));
        }
        entries := entries[op - start := e.value.(state := state)];
      }
    }

    method SetRequest(op: nat, req: Request) returns (found: bool)
      requires Valid() && !useHash
      modifies this
      ensures Valid()
      ensures found <==> start <= op <= old(LastOpnum())
      ensures entries == if found then old(entries)[op - start := old(entries)[op - start].(request := req)]
                                  else old(entries)
    {
      var e := Find(op);
      found := e.Some?;
      if found {
        entries := entries[op - start := e.value.(request := req)];
      }
    }

    /** Drops `op` itself and everything after it. */
    method RemoveAfter(op: nat)
      requires Valid()
      requires op >= start
      modifies this
      ensures Valid()
      ensures entries == if op > old(LastOpnum()) then old(entries) else old(entries)[..op - start]
      ensures op <= old(LastOpnum()) ==> LastOpnum() == op - 1
      ensures forall i: nat :: Find(i) == if i < op then old(Find(i)) else None
    {
      if op > LastOpnum() {
        return;
      }
      if useHash {
        ChainedPrefix(initialHash, entries, op - start);
      }
      entries := entries[..op - start];
    }

    /** The entries numbered from..to-1 that exist, in order. */
    method Dump(from: nat, to: nat) returns (out: seq<Entry>)
      requires Valid()
      requires to <= LastOpnum() + 1
      ensures out == if from < to && start < to
                     then entries[(if from < start then start else from) - start..to - start] else []
    {
      out := [];
      var first := if from < start then start else from;
      var i := first;
      while i < to
        invariant first <= i && (first <= to ==> i <= to)
        invariant out == if first < to then entries[first - start..i - start] else []
      {
        var e := Find(i);
        out := out + [e.value];
        i := i + 1;
      }
    }

    /** Appends list[from..] as prepared operations. */
    method AppendAll(list: seq<Entry>, from: nat)
      requires Valid()
      requires from <= |list| && Numbered(list[from..], LastOpnum() + 1)
      modifies this
      ensures Valid()
      ensures Extends(old(entries), entries, list[from..])
    {
      var it := from;
      while it < |list|
        invariant from <= it <= |list|
        invariant Valid()
        invariant |entries| == |old(entries)| + it - from
        invariant Extends(old(entries), entries, list[from..it])
      {
        assert list[it] == list[from..][it - from];
        ghost var before := entries;
        Append(Entry(list[it].view, list[it].opnum, Prepared, list[it].request, EmptyHash, 0));
        it := it + 1;
        assert list[from..it] == list[from..it - 1] + [list[it - 1]];
      }
      assert list[from..] == list[from..it];
    }

    /** Scans for the first divergence between this log and `list`. */
    method FindDivergence(list: seq<Entry>) returns (it: nat)
      requires Valid()
      ensures it == Divergence(entries, start, list, 0)
    {
      it := 0;
      while it < |list|
        invariant 0 <= it <= |list|
        invariant Divergence(entries, start, list, 0) == Divergence(entries, start, list, it)
      {
        var oldEntry := Find(list[it].opnum);
        if oldEntry.None? || list[it].view != oldEntry.value.view {
          break;
        }
        it := it + 1;
      }
    }

    /** Replaces what the log has from the first divergence on by the rest of the list. */
    method ReplaceFrom(list: seq<Entry>, it: nat)
      requires Valid() && it < |list| && it == Divergence(entries, start, list, 0)
      requires Numbered(list, list[0].opnum) && start <= list[0].opnum <= LastOpnum() + 1
      modifies this
      ensures Valid()
      ensures var at := list[0].opnum - start + it;
              && at <= |old(entries)| && Extends(old(entries)[..at], entries, list[it..])
              && old(entries)[..list[0].opnum - start] <= entries
    {
      assert it > 0 ==> Agrees(entries, start, list[it - 1]);
      ghost var before, at := entries, list[0].opnum - start + it;
      RemoveAfter(list[it].opnum);
      assert entries == before[..at];
      AppendAll(list, it);
      assert before[..at][..list[0].opnum - start] == before[..list[0].opnum - start];
    }

    /**
     * Overwrites this log from the first divergence on. Without a divergence nothing is removed, so a
     * longer log keeps its tail: the logs end up equal exactly when some entry diverged or the old log
     * was no longer than the list.
     */
    method Install(list: seq<Entry>)
      requires Valid()
      requires list != [] ==> Numbered(list, list[0].opnum) && start <= list[0].opnum <= LastOpnum() + 1
      modifies this
      ensures Valid()
      ensures list != [] ==> old(entries)[..list[0].opnum - start] <= entries
      ensures Divergence(old(entries), start, list, 0) == |list| ==> entries == old(entries)
      ensures list != [] && ViewstampsNameRequests(old(entries), start, list) ==>
                (EndsWith(entries, start, list) <==>
                 Divergence(old(entries), start, list, 0) < |list| || old(LastOpnum()) <= list[|list| - 1].opnum)
    {
      var it := FindDivergence(list);
      if it < |list| {
        ReplaceFrom(list, it);
        if ViewstampsNameRequests(old(entries), start, list) {
          DivergedEnds(old(entries), start, list, it, entries);
        }
      } else if list != [] && ViewstampsNameRequests(entries, start, list) {
        UndivergedEnds(entries, start, list);
      }
    }

    /** Cutting the log at the sender's last operation first makes it end with the sender's log. */
    method InstallDump(list: seq<Entry>)
      requires Valid()
      requires list != [] && Numbered(list, list[0].opnum) && start <= list[0].opnum <= LastOpnum() + 1
      requires ViewstampsNameRequests(entries, start, list)
      modifies this
      ensures Valid()
      ensures EndsWith(entries, start, list)
      ensures old(entries)[..list[0].opnum - start] <= entries
    {
      RemoveAfter(list[|list| - 1].opnum + 1);
      assert LastOpnum() <= list[|list| - 1].opnum;
      forall k | 0 <= k < |list|
        ensures NamesRequest(entries, start, list[k])
      {
        assert NamesRequest(old(entries), start, list[k]);
      }
      Install(list);
    }
  }
}

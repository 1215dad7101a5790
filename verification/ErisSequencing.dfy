/** The Eris sequencer: one counter per group, and the order that its stamps define. */
module ErisSequencing {
  import opened Quorums
  import opened Eris
  import Header = ErisHeader

  /** How many of the packets went to the group. */
  function Count(past: seq<seq<nat>>, g: nat): nat {
    if past == [] then 0 else Count(past[..|past| - 1], g) + if g in past[|past| - 1] then 1 else 0
  }

  predicate Distinct(groups: seq<nat>) {
    forall i, j :: 0 <= i < j < |groups| ==> groups[i] != groups[j]
  }

  class Sequencer {
    var nums: map<nat, nat>
    ghost var past: seq<seq<nat>>

    function Counter(g: nat): nat
      reads this
    {
      if g in nums then nums[g] else 0
    }

    /** Each group's counter is the number of packets it was sent. */
    ghost predicate Valid()
      reads this
    {
      forall g: nat :: Counter(g) == Count(past, g)
    }

    constructor ()
      ensures Valid() && past == []
    {
      nums, past := map[], [];
    }

    /** Stamps a packet for its groups, as listed in its header. */
    method Receive(groups: seq<nat>) returns (stamps: seq<Stamp>)
      requires Valid() && Distinct(groups)
      modifies this
      ensures Valid() && past == old(past) + [groups]
      ensures |stamps| == |groups|
      ensures forall i :: 0 <= i < |groups| ==> stamps[i] == Stamp(groups[i], Count(past, groups[i]))
    {
      stamps := [];
      for i := 0 to |groups|
        invariant |stamps| == i && past == old(past)
        invariant forall g: nat :: Counter(g) == Count(past, g) + if g in groups[..i] then 1 else 0
        invariant forall j :: 0 <= j < i ==> stamps[j] == Stamp(groups[j], Count(past, groups[j]) + 1)
      {
        var g := groups[i];
        assert g !in groups[..i];
        nums := nums[g := Counter(g) + 1];
        stamps := stamps + [Stamp(g, nums[g])];
        assert groups[..i + 1] == groups[..i] + [g];
      }
      assert groups[..|groups|] == groups;
      past := past + [groups];
      assert past[..|past| - 1] == old(past);
    }
  }

  /** The counters kept while the header is rewritten agree with the packets counted. */
  ghost predicate CountersOk(counters: map<nat, nat>, past: seq<seq<nat>>, some: seq<nat>) {
    forall g: nat :: CounterOk(counters, past, some, g)
  }

  predicate CounterOk(counters: map<nat, nat>, past: seq<seq<nat>>, some: seq<nat>, g: nat) {
    (if g in counters then counters[g] else 0) == Count(past, g) + if g in some then 1 else 0
  }

  /**
   * The numbers that rewriting the header assigns are the counts of packets per group: both descriptions of the
   * sequencer agree.
   */
  lemma {:induction false} HeaderCounts(counters: map<nat, nat>, past: seq<seq<nat>>, stamps: seq<Header.GroupStamp>,
                                        groups: seq<nat>, i: nat)
    requires CountersOk(counters, past, []) && Distinct(groups) && i <= |groups| == |stamps|
    requires forall j :: 0 <= j < |groups| ==> stamps[j].0 == groups[j]
    ensures var (cs, out) := Header.Assign(counters, stamps[..i]);
            && CountersOk(cs, past, groups[..i]) && |out| == i
            && forall j :: 0 <= j < i ==> out[j] == (groups[j], Count(past + [groups], groups[j]))
    decreases i
  {
    if i > 0 {
      var g := groups[i - 1];
      HeaderCounts(counters, past, stamps, groups, i - 1);
      Header.AssignNext(counters, stamps, i - 1);
      var (cs, out) := Header.Assign(counters, stamps[..i - 1]);
      CountNext(cs, past, groups, i - 1);
      var num := (if g in cs then cs[g] else 0) + 1;
      assert stamps[i - 1].0 == g && Header.Assign(counters, stamps[..i]) == (cs[g := num], out + [(g, num)]);
    }
  }

  lemma CountNext(cs: map<nat, nat>, past: seq<seq<nat>>, groups: seq<nat>, i: nat)
    requires i < |groups| && Distinct(groups) && CountersOk(cs, past, groups[..i])
    ensures var g := groups[i];
            var num := (if g in cs then cs[g] else 0) + 1;
            num == Count(past + [groups], g) && CountersOk(cs[g := num], past, groups[..i + 1])
  {
    var g := groups[i];
    assert groups[..i + 1] == groups[..i] + [g] && g !in groups[..i] && CounterOk(cs, past, groups[..i], g);
    assert (past + [groups])[..|past|] == past;
    var cs', some := cs[g := (if g in cs then cs[g] else 0) + 1], groups[..i + 1];
    forall x: nat
      ensures CounterOk(cs', past, some, x)
    {
      assert CounterOk(cs, past, groups[..i], x);
    }
  }

  // The order.

  /** The number packet k carries for one of its groups. */
  function NumberIn(past: seq<seq<nat>>, k: nat, g: nat): nat
    requires k < |past|
  {
    Count(past[..k + 1], g)
  }

  lemma {:induction false} CountGrows(past: seq<seq<nat>>, j: nat, k: nat, g: nat)
    requires j <= k <= |past|
    ensures Count(past[..j], g) <= Count(past[..k], g)
    decreases k
  {
    if j < k {
      CountGrows(past, j, k - 1, g);
      assert past[..k][..k - 1] == past[..k - 1];
    }
  }

  /** Of two packets to a group, the later one has the higher number. */
  lemma LaterIsHigher(past: seq<seq<nat>>, j: nat, k: nat, g: nat)
    requires j < k < |past| && g in past[k]
    ensures NumberIn(past, j, g) < NumberIn(past, k, g)
  {
    CountGrows(past, j + 1, k, g);
    assert past[..k + 1][..k] == past[..k];
  }

  /** A group and a number name one packet. */
  lemma StampNamesPacket(past: seq<seq<nat>>, j: nat, k: nat, g: nat)
    requires j < |past| && k < |past| && g in past[j] && g in past[k] && NumberIn(past, j, g) == NumberIn(past, k, g)
    ensures j == k
  {
    if j < k {
      LaterIsHigher(past, j, k, g);
    } else if k < j {
      LaterIsHigher(past, k, j, g);
    }
  }

  /** The numbers of a group run from 1 without a hole. */
  lemma {:induction false} NumbersConsecutive(past: seq<seq<nat>>, g: nat, n: nat) returns (k: nat)
    requires 1 <= n <= Count(past, g)
    ensures k < |past| && g in past[k] && NumberIn(past, k, g) == n
    decreases |past|
  {
    var last := |past| - 1;
    var rest := past[..last];
    if Count(rest, g) < n {
      k := last;
      assert past[..last + 1] == past;
    } else {
      k := NumbersConsecutive(rest, g, n);
      assert past[..k + 1] == rest[..k + 1];
    }
  }

  /** Packet j comes before packet k in some group they share. */
  ghost predicate Precedes(past: seq<seq<nat>>, j: nat, k: nat) {
    j < |past| && k < |past| && exists g :: g in past[j] && g in past[k] && NumberIn(past, j, g) < NumberIn(past, k, g)
  }

  /** Packets that share groups are ordered the same way in all of them. */
  lemma SameOrderEverywhere(past: seq<seq<nat>>, j: nat, k: nat, g: nat, h: nat)
    requires j < |past| && k < |past| && g in past[j] && g in past[k] && h in past[j] && h in past[k]
    ensures NumberIn(past, j, g) < NumberIn(past, k, g) <==> NumberIn(past, j, h) < NumberIn(past, k, h)
  {
    if j < k {
      LaterIsHigher(past, j, k, g);
      LaterIsHigher(past, j, k, h);
    } else if k < j {
      LaterIsHigher(past, k, j, g);
      LaterIsHigher(past, k, j, h);
    }
  }

  /** The orders of all groups taken together have no cycle. */
  lemma {:induction false} NoCycle(past: seq<seq<nat>>, path: seq<nat>)
    requires |path| >= 2 && forall i :: 0 <= i < |path| - 1 ==> Precedes(past, path[i], path[i + 1])
    ensures path[0] < path[|path| - 1]
    decreases |path|
  {
    var n := |path| - 2;
    assert Precedes(past, path[n], path[n + 1]);
    var j, k := path[n], path[n + 1];
    var g :| g in past[j] && g in past[k] && NumberIn(past, j, g) < NumberIn(past, k, g);
    if k < j {
      LaterIsHigher(past, k, j, g);
    }
    if |path| > 2 {
      NoCycle(past, path[..|path| - 1]);
    }
  }

  // The epoch the servers see.

  /** The transaction of packet k, with its stamps. */
  function TxnOf(past: seq<seq<nat>>, k: nat): (t: Txn)
    requires k < |past|
    ensures |t.stamps| == |past[k]|
    ensures forall i :: 0 <= i < |past[k]| ==> t.stamps[i] == Stamp(past[k][i], NumberIn(past, k, past[k][i]))
  {
    Txn(k, seq(|past[k]|, i requires 0 <= i < |past[k]| => Stamp(past[k][i], NumberIn(past, k, past[k][i]))))
  }

  function Issued(past: seq<seq<nat>>): set<Txn> {
    set k | 0 <= k < |past| :: TxnOf(past, k)
  }

  /** The order of arrival is the order of all stamps. */
  lemma ArrivalOrders(past: seq<seq<nat>>, j: nat, k: nat)
    requires j < k < |past|
    ensures Before(TxnOf(past, j), TxnOf(past, k))
  {
    var t, t' := TxnOf(past, j), TxnOf(past, k);
    forall s, s' | s in t.stamps && s' in t'.stamps && s.shard == s'.shard
      ensures s.msgnum < s'.msgnum
    {
      LaterIsHigher(past, j, k, s.shard);
    }
  }

  lemma SequencerOrders(past: seq<seq<nat>>)
    ensures Ordered(Issued(past))
  {
    forall t, t', s, s' | t in Issued(past) && t' in Issued(past) && s in t.stamps && s' in t'.stamps
                          && s.shard == s'.shard && s.msgnum < s'.msgnum
      ensures Before(t, t')
    {
      var j :| 0 <= j < |past| && t == TxnOf(past, j);
      var k :| 0 <= k < |past| && t' == TxnOf(past, k);
      if j < k {
        ArrivalOrders(past, j, k);
      } else if k < j {
        ArrivalOrders(past, k, j);
      }
    }
  }

  /** What the sequencer issues makes a valid epoch, ordered alike in all shards: all the servers rely on. */
  lemma SequencerMakesEpoch(c: Config, shards: nat, past: seq<seq<nat>>)
    requires ValidConfig(c) && forall k :: 0 <= k < |past| ==> Distinct(past[k])
    ensures ValidEpoch(Epoch(c, shards, Issued(past))) && Ordered(Issued(past))
  {
    SequencerOrders(past);
    var e := Epoch(c, shards, Issued(past));
    forall t, t', s | t in e.issued && t' in e.issued && s in t.stamps && s in t'.stamps
      ensures t == t'
    {
      var j :| 0 <= j < |past| && t == TxnOf(past, j);
      var k :| 0 <= k < |past| && t' == TxnOf(past, k);
      StampNamesPacket(past, j, k, s.shard);
    }
    forall t, s, s' | t in e.issued && s in t.stamps && s' in t.stamps && s.shard == s'.shard
      ensures s == s'
    {
      var j :| 0 <= j < |past| && t == TxnOf(past, j);
    }
  }
}

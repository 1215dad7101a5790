/**
 * The client table of a speculative replica: for every client, its newest request and where the log
 * holds it. The table is determined by the log: it is what replaying the log produces.
 */
module ClientTables {
  import opened Logs

  datatype ClientEntry = ClientEntry(lastReqId: nat, lastReqOpnum: nat)

  type Table = map<nat, ClientEntry>

  /** A client never seen reads as all zeros, as a value-initialised map slot does. */
  function Get(t: Table, client: nat): ClientEntry {
    if client in t then t[client] else ClientEntry(0, 0)
  }

  ghost predicate SameTable(t: Table, u: Table) {
    forall c :: Get(t, c) == Get(u, c)
  }

  /** The table after recording one log entry. */
  function Record(t: Table, e: Entry): Table {
    var known := Get(t, e.request.clientid);
    t[e.request.clientid := if known.lastReqId == e.request.clientreqid then known
                            else ClientEntry(e.request.clientreqid, e.opnum)]
  }

  function Replay(es: seq<Entry>): Table {
    if es == [] then map[] else Record(Replay(es[..|es| - 1]), es[|es| - 1])
  }

  /** The entry carries a request number its client has not used before. */
  predicate Fresh(t: Table, e: Entry) {
    Get(t, e.request.clientid).lastReqId < e.request.clientreqid
  }

  predicate FreshAt(es: seq<Entry>, i: nat)
    requires i < |es|
  {
    Fresh(Replay(es[..i]), es[i])
  }

  /** Every client's request numbers strictly increase along the log. */
  predicate Increasing(es: seq<Entry>) {
    forall i :: 0 <= i < |es| ==> FreshAt(es, i)
  }

  /** The assertion on recording: no number below the client's newest one. */
  predicate Accepts(t: Table, e: Entry) {
    Get(t, e.request.clientid).lastReqId <= e.request.clientreqid
  }

  predicate AcceptedAt(es: seq<Entry>, i: nat)
    requires i < |es|
  {
    Accepts(Replay(es[..i]), es[i])
  }

  /** Every client's request numbers never fall along the log. */
  predicate Accepted(es: seq<Entry>) {
    forall i :: 0 <= i < |es| ==> AcceptedAt(es, i)
  }

  /** From index k on, every entry carried a new number. */
  predicate FreshFrom(es: seq<Entry>, k: nat) {
    forall i :: k <= i < |es| ==> FreshAt(es, i)
  }

  lemma IncreasingAccepted(es: seq<Entry>)
    requires Increasing(es)
    ensures Accepted(es)
  {
    forall i | 0 <= i < |es|
      ensures AcceptedAt(es, i)
    {
      assert FreshAt(es, i);
    }
  }

  predicate RemembersAt(es: seq<Entry>, i: nat)
    requires i < |es|
  {
    es[i].prevClientReqOpnum == Get(Replay(es[..i]), es[i].request.clientid).lastReqOpnum
  }

  /** Each entry remembers where its client's previous request was. */
  predicate Remembers(es: seq<Entry>) {
    forall i :: 0 <= i < |es| ==> RemembersAt(es, i)
  }

  /** What the table says of a client is in the log. */
  predicate InLog(es: seq<Entry>, client: nat, ce: ClientEntry) {
    if ce.lastReqOpnum == 0 then ce.lastReqId == 0
    else ce.lastReqOpnum <= |es| && es[ce.lastReqOpnum - 1].request.clientid == client
         && es[ce.lastReqOpnum - 1].request.clientreqid == ce.lastReqId
  }

  lemma {:induction false} ReplayInLog(es: seq<Entry>, client: nat)
    requires Numbered(es, 1)
    ensures InLog(es, client, Get(Replay(es), client))
  {
    if es != [] {
      ReplayInLog(es[..|es| - 1], client);
    }
  }

  /** A client with an entry in the table has sent a number above 0. */
  lemma {:induction false} EntryAboveZero(es: seq<Entry>, client: nat)
    requires Numbered(es, 1) && Accepted(es)
    ensures Get(Replay(es), client).lastReqOpnum > 0 ==> Get(Replay(es), client).lastReqId > 0
  {
    if es != [] {
      var n := |es| - 1;
      assert AcceptedAt(es, n);
      AcceptedPrefix(es, n);
      EntryAboveZero(es[..n], client);
    }
  }

  /** Same numbering and same request numbers; nothing else matters to the table. */
  predicate Congruent(es: seq<Entry>, fs: seq<Entry>) {
    && |es| == |fs|
    && forall i :: 0 <= i < |es| ==> es[i].opnum == fs[i].opnum && Id(es[i].request) == Id(fs[i].request)
  }

  lemma {:induction false} ReplayCongruent(es: seq<Entry>, fs: seq<Entry>)
    requires Congruent(es, fs)
    ensures Replay(es) == Replay(fs)
  {
    if es != [] {
      ReplayCongruent(es[..|es| - 1], fs[..|fs| - 1]);
    }
  }

  lemma AcceptedCongruent(es: seq<Entry>, fs: seq<Entry>)
    requires Congruent(es, fs) && Accepted(es)
    ensures Accepted(fs)
  {
    forall i | 0 <= i < |fs|
      ensures AcceptedAt(fs, i)
    {
      assert AcceptedAt(es, i);
      ReplayCongruent(es[..i], fs[..i]);
    }
  }

  lemma FreshCongruent(es: seq<Entry>, fs: seq<Entry>, k: nat)
    requires Congruent(es, fs) && FreshFrom(es, k)
    ensures FreshFrom(fs, k)
  {
    forall i | k <= i < |fs|
      ensures FreshAt(fs, i)
    {
      assert FreshAt(es, i);
      ReplayCongruent(es[..i], fs[..i]);
    }
  }

  lemma AcceptedPrefix(es: seq<Entry>, k: nat)
    requires k <= |es| && Accepted(es)
    ensures Accepted(es[..k])
  {
    forall i | 0 <= i < k
      ensures AcceptedAt(es[..k], i)
    {
      assert AcceptedAt(es, i) && es[..k][..i] == es[..i];
    }
  }

  lemma RemembersPrefix(es: seq<Entry>, k: nat)
    requires k <= |es| && Remembers(es)
    ensures Remembers(es[..k])
  {
    forall i | 0 <= i < k
      ensures RemembersAt(es[..k], i)
    {
      assert RemembersAt(es, i) && es[..k][..i] == es[..i];
    }
  }

  /** Appending an accepted, remembering entry keeps the log in order; a fresh one stays fresh. */
  lemma AppendInOrder(es: seq<Entry>, e: Entry)
    requires Accepted(es) && Remembers(es)
    requires Accepts(Replay(es), e)
    requires e.prevClientReqOpnum == Get(Replay(es), e.request.clientid).lastReqOpnum
    ensures Accepted(es + [e]) && Remembers(es + [e])
    ensures Fresh(Replay(es), e) && Increasing(es) ==> Increasing(es + [e])
    ensures Replay(es + [e]) == Record(Replay(es), e)
  {
    var fs := es + [e];
    assert fs[..|es|] == es;
    forall i | 0 <= i < |fs|
      ensures AcceptedAt(fs, i) && RemembersAt(fs, i) && (Fresh(Replay(es), e) && Increasing(es) ==> FreshAt(fs, i))
    {
      if i < |es| {
        assert fs[..i] == es[..i] && AcceptedAt(es, i) && RemembersAt(es, i) && (Increasing(es) ==> FreshAt(es, i));
      }
    }
  }

  lemma StatusKeepsOrder(es: seq<Entry>, fs: seq<Entry>)
    requires Congruent(es, fs) && Accepted(es) && Remembers(es)
    requires forall i :: 0 <= i < |es| ==> es[i].prevClientReqOpnum == fs[i].prevClientReqOpnum
    ensures Accepted(fs) && Remembers(fs) && Replay(fs) == Replay(es)
  {
    AcceptedCongruent(es, fs);
    ReplayCongruent(es, fs);
    forall i | 0 <= i < |fs|
      ensures RemembersAt(fs, i)
    {
      assert RemembersAt(es, i);
      ReplayCongruent(es[..i], fs[..i]);
    }
  }

  /** The table entry that undoing `e`, the last entry of `es`, restores for its client. */
  function Undone(es: seq<Entry>, e: Entry): ClientEntry
    requires e.prevClientReqOpnum <= |es|
  {
    var p := e.prevClientReqOpnum;
    if p > 0 then ClientEntry(es[p - 1].request.clientreqid, p) else ClientEntry(0, 0)
  }

  /** Undoing the last entry, if it carried a new number, gives the table of the log without it. */
  lemma UndoLast(es: seq<Entry>, t: Table)
    requires es != [] && Numbered(es, 1) && Remembers(es) && FreshAt(es, |es| - 1)
    requires SameTable(t, Replay(es))
    ensures var n := |es| - 1; var e := es[n];
            && e.prevClientReqOpnum <= n
            && Get(t, e.request.clientid).lastReqOpnum == e.opnum
            && SameTable(t[e.request.clientid := Undone(es[..n], e)], Replay(es[..n]))
  {
    var n := |es| - 1;
    var e := es[n];
    assert RemembersAt(es, n);
    ReplayInLog(es[..n], e.request.clientid);
    var u := t[e.request.clientid := Undone(es[..n], e)];
    forall c
      ensures Get(u, c) == Get(Replay(es[..n]), c)
    {
      assert Get(t, c) == Get(Replay(es), c);
    }
  }

  /** The same in the middle of a log, when everything after it has been undone. */
  lemma UndoAt(es: seq<Entry>, i: nat, t: Table)
    requires 1 <= i <= |es| && Numbered(es, 1) && Remembers(es) && FreshAt(es, i - 1)
    requires SameTable(t, Replay(es[..i]))
    ensures var e := es[i - 1];
            && e.prevClientReqOpnum < i
            && Get(t, e.request.clientid).lastReqOpnum == e.opnum
            && SameTable(t[e.request.clientid := Undone(es, e)], Replay(es[..i - 1]))
  {
    RemembersPrefix(es, i);
    assert es[..i][..i - 1] == es[..i - 1];
    UndoLast(es[..i], t);
  }

  /**
   * The check made while undoing an entry, that the client's newest request is this entry, holds
   * exactly for entries that carried a new request number.
   */
  lemma UndoCheckExact(es: seq<Entry>)
    requires es != [] && Numbered(es, 1)
    ensures var n := |es| - 1; var e := es[n];
            Get(Replay(es), e.request.clientid).lastReqOpnum == e.opnum <==>
            Get(Replay(es[..n]), e.request.clientid).lastReqId != e.request.clientreqid
  {
    var n := |es| - 1;
    ReplayInLog(es[..n], es[n].request.clientid);
  }
}

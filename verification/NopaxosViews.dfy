/**
 * NOPaxos view identifiers. They are pairs of session and view, only partially ordered, and a replica
 * that is told of a higher component takes the componentwise maximum; yet the identifiers under which
 * replicas operate form a chain.
 */
module NopaxosViews {
  import opened Quorums

  datatype Id = Id(sess: nat, view: nat)

  predicate Below(a: Id, b: Id) {
    a.sess <= b.sess && a.view <= b.view
  }

  predicate Comparable(a: Id, b: Id) {
    Below(a, b) || Below(b, a)
  }

  function Join(a: Id, b: Id): (c: Id)
    ensures Below(a, c) && Below(b, c)
    ensures forall d :: Below(a, d) && Below(b, d) ==> Below(c, d)
  {
    Id(if a.sess < b.sess then b.sess else a.sess, if a.view < b.view then b.view else a.view)
  }

  datatype Message =
    | ViewChange(replica: nat, id: Id, lastNormal: Id)
    | StartView(id: Id)

  /**
   * A replica's identifier, whether it is changing views, the last identifier under which it operated,
   * and whether it waits for a state transfer to enter the current one.
   */
  datatype Replica = Replica(id: Id, changing: bool, lastNormal: Id, waiting: bool)

  /**
   * The history is part of the state: `held[i]` are the identifiers replica i has had, `entered` those some
   * replica has operated under.
   */
  datatype System = System(replicas: seq<Replica>, sent: set<Message>, held: seq<set<Id>>, entered: set<Id>)

  const FIRST: Id := Id(0, 0)

  ghost predicate Init(c: Config, s: System) {
    && ValidConfig(c) && |s.replicas| == |s.held| == c.n && s.sent == {} && s.entered == {FIRST}
    && forall i :: 0 <= i < c.n ==> s.replicas[i] == Replica(FIRST, false, FIRST, false) && s.held[i] == {FIRST}
  }

  datatype Step =
    | StartChange(i: nat, id: Id)
    | Merged(i: nat, transfer: bool)
    | HearStartView(i: nat, id: Id, transfer: bool)
    | Transferred(i: nat)

  /** Replica `i` becomes `r`; its identifier enters its history, and the common one when it operates under it. */
  function Become(s: System, i: nat, r: Replica, out: set<Message>): System
    requires i < |s.replicas| == |s.held|
  {
    System(s.replicas[i := r], s.sent + out, s.held[i := s.held[i] + {r.id}],
           if r.changing then s.entered else s.entered + {r.id})
  }

  /** Starting a view change, for whatever reason, with a session or view that is higher. */
  function StartViewChange(r: Replica, id: Id): Replica {
    Replica(Join(r.id, id), true, r.lastNormal, false)
  }

  function EnterView(id: Id): Replica {
    Replica(id, false, id, false)
  }

  /** The replicas that sent a view-change message under exactly this identifier. */
  function Heard(s: System, id: Id): set<nat> {
    set m | m in s.sent && m.ViewChange? && m.id == id :: m.replica
  }

  ghost predicate Next(c: Config, s: System, s': System, step: Step) {
    match step
    case StartChange(i, id) =>
      && i < |s.replicas| == |s.held| && (id.sess > s.replicas[i].id.sess || id.view > s.replicas[i].id.view)
      && var r := StartViewChange(s.replicas[i], id);
         s' == Become(s, i, r, if LeaderIs(c, r.id, i) then {} else {ViewChange(i, r.id, r.lastNormal)})
    case Merged(i, transfer) =>
      && i < |s.replicas| == |s.held|
      && var r := s.replicas[i];
         && r.changing && LeaderIs(c, r.id, i) && |Heard(s, r.id) - {i}| >= QuorumSize(c) - 1
         && s' == if transfer then Become(s, i, r.(waiting := true), {})
                  else Become(s, i, EnterView(r.id), {StartView(r.id)})
    case HearStartView(i, id, transfer) =>
      && i < |s.replicas| == |s.held| && StartView(id) in s.sent && Below(s.replicas[i].id, id)
      && (s.replicas[i].id == id ==> s.replicas[i].changing)
      && s' == if transfer then Become(s, i, s.replicas[i].(id := id, changing := true, waiting := true), {})
               else Become(s, i, EnterView(id), {})
    case Transferred(i) =>
      && i < |s.replicas| == |s.held| && s.replicas[i].changing && s.replicas[i].waiting
      && var id := s.replicas[i].id;
         s' == Become(s, i, EnterView(id), if LeaderIs(c, id, i) then {StartView(id)} else {})
  }

  predicate LeaderIs(c: Config, id: Id, i: nat) {
    c.n > 0 && id.view % c.n == i
  }

  // The invariant.

  /** The replicas that have had this identifier. */
  function Holders(s: System, id: Id): set<nat> {
    set i: nat | i < |s.held| && id in s.held[i]
  }

  predicate OnQuorum(c: Config, s: System, id: Id) {
    |Holders(s, id)| >= QuorumSize(c)
  }

  /** A replica's identifiers are a chain that ends in the current one. */
  predicate HistoryOk(r: Replica, ids: set<Id>) {
    && r.id in ids && r.lastNormal in ids
    && (forall a :: a in ids ==> Below(a, r.id))
    && (forall a, b :: a in ids && b in ids ==> Comparable(a, b))
  }

  ghost predicate ReplicaOk(c: Config, s: System, i: nat)
    requires i < |s.replicas| == |s.held|
  {
    && HistoryOk(s.replicas[i], s.held[i])
    && s.replicas[i].lastNormal in s.entered
    && (!s.replicas[i].changing || s.replicas[i].waiting ==> OnQuorum(c, s, s.replicas[i].id))
  }

  predicate MessageOk(s: System, m: Message) {
    match m
    case ViewChange(i, id, lastNormal) => i < |s.held| && id in s.held[i] && lastNormal in s.entered
    case StartView(id) => id in s.entered
  }

  ghost predicate Inv(c: Config, s: System) {
    && ValidConfig(c) && |s.replicas| == |s.held| == c.n
    && (forall i :: 0 <= i < c.n ==> ReplicaOk(c, s, i))
    && (forall m :: m in s.sent ==> MessageOk(s, m))
    && (forall id :: id in s.entered ==> OnQuorum(c, s, id))
  }

  lemma InvInit(c: Config, s: System)
    requires Init(c, s)
    ensures Inv(c, s)
  {
    assert Replicas(c.n) <= Holders(s, FIRST);
    SubsetCount(Replicas(c.n), Holders(s, FIRST));
  }

  lemma MoreHolders(c: Config, s: System, i: nat, ids: set<Id>, id: Id)
    requires i < |s.held| && s.held[i] <= ids && OnQuorum(c, s, id)
    ensures OnQuorum(c, s.(held := s.held[i := ids]), id)
  {
    SubsetCount(Holders(s, id), Holders(s.(held := s.held[i := ids]), id));
  }

  /** What a step of replica `i` must meet to keep the invariant. */
  lemma BecomeKeeps(c: Config, s: System, i: nat, r: Replica, out: set<Message>)
    requires Inv(c, s) && i < c.n && Below(s.replicas[i].id, r.id)
    requires r.lastNormal == if r.changing then s.replicas[i].lastNormal else r.id
    requires !r.changing || r.waiting ==> OnQuorum(c, s, r.id)
    requires forall m :: m in out ==>
               m == ViewChange(i, r.id, s.replicas[i].lastNormal) || (m == StartView(r.id) && !r.changing)
    ensures Inv(c, Become(s, i, r, out))
  {
    var s' := Become(s, i, r, out);
    var ids := s.held[i] + {r.id};
    assert ReplicaOk(c, s, i);
    forall id | OnQuorum(c, s, id)
      ensures OnQuorum(c, s', id)
    {
      MoreHolders(c, s, i, ids, id);
    }
    forall j | 0 <= j < c.n
      ensures ReplicaOk(c, s', j)
    {
      assert ReplicaOk(c, s, j);
    }
    forall m | m in s'.sent
      ensures MessageOk(s', m)
    {
      if m in s.sent {
        assert MessageOk(s, m);
      }
    }
  }

  /** A leader that heard f others under its identifier has it on a quorum. */
  lemma HeardQuorum(c: Config, s: System, i: nat)
    requires Inv(c, s) && i < c.n && |Heard(s, s.replicas[i].id) - {i}| >= QuorumSize(c) - 1
    ensures OnQuorum(c, s, s.replicas[i].id)
  {
    var id := s.replicas[i].id;
    assert ReplicaOk(c, s, i);
    var others := Heard(s, id) - {i};
    forall j | j in others + {i}
      ensures j in Holders(s, id)
    {
      if j != i {
        var m :| m in s.sent && m.ViewChange? && m.id == id && m.replica == j;
        assert MessageOk(s, m);
      }
    }
    SubsetCount(others + {i}, Holders(s, id));
  }

  lemma InvNext(c: Config, s: System, s': System, step: Step)
    requires Inv(c, s) && Next(c, s, s', step)
    ensures Inv(c, s')
  {
    match step
    case StartChange(i, id) =>
      var r := StartViewChange(s.replicas[i], id);
      BecomeKeeps(c, s, i, r, if LeaderIs(c, r.id, i) then {} else {ViewChange(i, r.id, r.lastNormal)});
    case Merged(i, transfer) =>
      HeardQuorum(c, s, i);
      var r := s.replicas[i];
      if transfer {
        BecomeKeeps(c, s, i, r.(waiting := true), {});
      } else {
        BecomeKeeps(c, s, i, EnterView(r.id), {StartView(r.id)});
      }
    case HearStartView(i, id, transfer) =>
      assert MessageOk(s, StartView(id));
      if transfer {
        BecomeKeeps(c, s, i, s.replicas[i].(id := id, changing := true, waiting := true), {});
      } else {
        BecomeKeeps(c, s, i, EnterView(id), {});
      }
    case Transferred(i) =>
      assert ReplicaOk(c, s, i);
      var id := s.replicas[i].id;
      BecomeKeeps(c, s, i, EnterView(id), if LeaderIs(c, id, i) then {StartView(id)} else {});
  }

  // Theorems.

  ghost predicate NextAt(c: Config, run: seq<System>, steps: seq<Step>, k: nat)
    requires k < |steps| && |run| == |steps| + 1
  {
    Next(c, run[k], run[k + 1], steps[k])
  }

  ghost predicate Run(c: Config, run: seq<System>, steps: seq<Step>) {
    && |run| == |steps| + 1 && Init(c, run[0])
    && forall k :: 0 <= k < |steps| ==> NextAt(c, run, steps, k)
  }

  lemma {:induction false} Reachable(c: Config, run: seq<System>, steps: seq<Step>, k: nat)
    requires Run(c, run, steps) && k < |run|
    ensures Inv(c, run[k])
    decreases k
  {
    if k == 0 {
      InvInit(c, run[0]);
    } else {
      Reachable(c, run, steps, k - 1);
      assert NextAt(c, run, steps, k - 1);
      InvNext(c, run[k - 1], run[k], steps[k - 1]);
    }
  }

  /** All identifiers any replica has ever operated under form a chain. */
  lemma EnteredChain(c: Config, run: seq<System>, steps: seq<Step>, k: nat, a: Id, b: Id)
    requires Run(c, run, steps) && k < |run| && a in run[k].entered && b in run[k].entered
    ensures Comparable(a, b)
  {
    Reachable(c, run, steps, k);
    var s := run[k];
    assert OnQuorum(c, s, a) && OnQuorum(c, s, b);
    var i := QuorumsMeet(c, Holders(s, a), Holders(s, b));
    assert ReplicaOk(c, s, i);
  }

  /** And no replica ever goes back, component by component. */
  lemma NeverBack(c: Config, s: System, s': System, step: Step, i: nat)
    requires Inv(c, s) && Next(c, s, s', step) && i < c.n
    ensures Below(s.replicas[i].id, s'.replicas[i].id) && Below(s.replicas[i].lastNormal, s'.replicas[i].lastNormal)
  {
    assert ReplicaOk(c, s, i);
  }

  /** The largest session and the largest view among reports, each taken separately. */
  function Maxima(ids: seq<Id>): (m: Id)
    requires ids != []
    ensures forall i :: 0 <= i < |ids| ==> Below(ids[i], m)
  {
    if |ids| == 1 then ids[0] else Join(Maxima(ids[..|ids| - 1]), ids[|ids| - 1])
  }

  /** On a chain the separate maxima belong to one report. */
  lemma {:induction false} MaximaOfChain(ids: seq<Id>)
    requires ids != [] && forall i, j :: 0 <= i < |ids| && 0 <= j < |ids| ==> Comparable(ids[i], ids[j])
    ensures Maxima(ids) in ids
    decreases |ids|
  {
    if |ids| > 1 {
      var rest := ids[..|ids| - 1];
      MaximaOfChain(rest);
      var i :| 0 <= i < |rest| && rest[i] == Maxima(rest);
      assert Comparable(ids[i], ids[|ids| - 1]);
    }
  }

  /** What a replica and the senders of some view-change messages last operated under. */
  function Reported(own: Id, ms: seq<Message>): (ids: seq<Id>)
    requires forall x :: 0 <= x < |ms| ==> ms[x].ViewChange?
    ensures |ids| == |ms| + 1 && ids[0] == own && forall x :: 0 <= x < |ms| ==> ids[x + 1] == ms[x].lastNormal
  {
    [own] + seq(|ms|, x requires 0 <= x < |ms| => ms[x].lastNormal)
  }

  /**
   * So whenever a leader merges, whichever view-change messages it holds, the largest session and the
   * largest view in them and its own are the exact pair of one of the reports.
   */
  lemma MaximaOfReports(c: Config, run: seq<System>, steps: seq<Step>, k: nat, i: nat, ms: seq<Message>)
    requires Run(c, run, steps) && k < |run| && i < c.n
    requires forall x :: 0 <= x < |ms| ==> ms[x].ViewChange? && ms[x] in run[k].sent
    ensures |run[k].replicas| == c.n
    ensures var ids := Reported(run[k].replicas[i].lastNormal, ms); Maxima(ids) in ids
  {
    Reachable(c, run, steps, k);
    var s := run[k];
    var ids := Reported(s.replicas[i].lastNormal, ms);
    assert ReplicaOk(c, s, i);
    forall x | 0 <= x < |ids|
      ensures ids[x] in s.entered
    {
      if x > 0 {
        assert MessageOk(s, ms[x - 1]) && ids[x - 1 + 1] == ms[x - 1].lastNormal;
      }
    }
    forall x, y | 0 <= x < |ids| && 0 <= y < |ids|
      ensures Comparable(ids[x], ids[y])
    {
      EnteredChain(c, run, steps, k, ids[x], ids[y]);
    }
    MaximaOfChain(ids);
  }

  /** Without the chain the separate maxima may belong to nobody. */
  lemma MaximaOfNobody()
    ensures Maxima([Id(1, 0), Id(0, 1)]) == Id(1, 1)
    ensures Maxima([Id(1, 0), Id(0, 1)]) !in [Id(1, 0), Id(0, 1)]
  {
    assert [Id(1, 0), Id(0, 1)][..1] == [Id(1, 0)];
  }
}

/**
 * What every step of Fast Paxos does, over runs. The leader's log and commit point are told by what it received:
 * the requests that were new, and the replies it counted.
 */
module FastPaxosEffects {
  import opened Numbers
  import opened Quorums
  import opened Logs
  import opened FastPaxos
  import opened FastPaxosSafety
  import opened FastPaxosRuns

  function Lead(s: System): Replica
    requires LEADER < |s.replicas|
  {
    s.replicas[LEADER]
  }

  // Requests at the leader.

  predicate ReceivedBefore(steps: seq<Step>, j: nat, req: Request)
    requires j < |steps|
  {
    Requested(steps[j]) && steps[j].m.req.clientid == req.clientid && steps[j].m.req.clientreqid >= req.clientreqid
  }

  /** The leader receives a request. */
  predicate Requested(step: Step) {
    step.Deliver? && step.i == LEADER && step.m.ClientRequest?
  }

  /** The request's number is above all that the leader has received of its client. */
  ghost predicate IsNew(steps: seq<Step>, req: Request) {
    forall j :: 0 <= j < |steps| ==> !ReceivedBefore(steps, j, req)
  }

  ghost predicate Brings(before: seq<Step>, step: Step) {
    Requested(step) && IsNew(before, step.m.req)
  }

  /** The requests the leader received that were new, in order. */
  ghost function Logged(steps: seq<Step>): seq<Request> {
    if steps == [] then []
    else
      var n := |steps| - 1;
      Logged(steps[..n]) + if Brings(steps[..n], steps[n]) then [steps[n].m.req] else []
  }

  predicate Fits(t: map<nat, nat>, req: Request) {
    req.clientid in t ==> req.clientreqid > t[req.clientid]
  }

  ghost predicate TableTells(steps: seq<Step>, t: map<nat, nat>) {
    forall req :: Fits(t, req) <==> IsNew(steps, req)
  }

  lemma NewAfter(steps: seq<Step>, step: Step, req: Request)
    ensures IsNew(steps + [step], req) <==> IsNew(steps, req) && !ReceivedBefore([step], 0, req)
  {
    var all := steps + [step];
    assert all[|steps|] == step;
    assert ReceivedBefore(all, |steps|, req) <==> ReceivedBefore([step], 0, req);
    forall j | 0 <= j < |steps|
      ensures ReceivedBefore(all, j, req) <==> ReceivedBefore(steps, j, req)
    {
    }
    if IsNew(all, req) {
      forall j | 0 <= j < |steps|
        ensures !ReceivedBefore(steps, j, req)
      {
        assert !ReceivedBefore(all, j, req);
      }
    }
  }

  lemma TableAfter(steps: seq<Step>, step: Step, t: map<nat, nat>)
    requires TableTells(steps, t)
    ensures TableTells(steps + [step], if Requested(step) then UpdateClientTable(t, step.m.req) else t)
  {
    var t' := if Requested(step) then UpdateClientTable(t, step.m.req) else t;
    forall req
      ensures Fits(t', req) <==> IsNew(steps + [step], req)
    {
      NewAfter(steps, step, req);
    }
  }

  lemma LoggedAfter(steps: seq<Step>, step: Step)
    ensures Logged(steps + [step]) == Logged(steps) + if Brings(steps, step) then [step.m.req] else []
  {
    assert (steps + [step])[..|steps|] == steps;
  }

  /** Executing its own log tells the leader's table nothing new. */
  lemma {:induction false} ExecuteKnown(r: Replica, upto: nat)
    requires InClientOrder(r.log, r.clientTable) && upto <= |r.log|
    ensures ExecuteUpTo(r, upto).clientTable == r.clientTable
    decreases upto
  {
    if r.lastCommitted < upto {
      ExecuteKnown(r, upto - 1);
    }
  }

  // Replies at the leader.

  /** A reply that is counted: the operation is there and open, and on the fast path the request is the leader's. */
  predicate Counts(r: Replica, op: nat, slowpath: bool, req: Request) {
    r.lastCommitted < op <= |r.log| && (slowpath || Id(r.log[op - 1]) == Id(req))
  }

  predicate CountStep(s: System, step: Step, op: nat, slowpath: bool) {
    && LEADER < |s.replicas| && step.Deliver? && step.i == LEADER && step.m.PrepareOK?
    && step.m.op == op && step.m.slowpath == slowpath && Counts(Lead(s), op, slowpath, step.m.req)
  }

  /** The followers whose replies were counted in the first k steps. */
  function Counted(run: seq<System>, steps: seq<Step>, k: nat, op: nat, slowpath: bool): set<nat>
    requires k <= |steps| <= |run|
  {
    set j | 0 <= j < k && CountStep(run[j], steps[j], op, slowpath) :: steps[j].m.replica
  }

  lemma CountedNext(run: seq<System>, steps: seq<Step>, k: nat, op: nat, slowpath: bool)
    requires k < |steps| <= |run|
    ensures Counted(run, steps, k + 1, op, slowpath) == Counted(run, steps, k, op, slowpath) +
              if CountStep(run[k], steps[k], op, slowpath) then {steps[k].m.replica} else {}
  {
  }

  ghost predicate Enough(c: Config, run: seq<System>, steps: seq<Step>, k: nat, op: nat, slowpath: bool)
    requires k <= |steps| <= |run|
  {
    var counted := Counted(run, steps, k, op, slowpath);
    counted != {} && |counted| >= Required(c, slowpath)
  }

  lemma EnoughNext(c: Config, run: seq<System>, steps: seq<Step>, k: nat, op: nat, slowpath: bool)
    requires k < |steps| <= |run|
    ensures Enough(c, run, steps, k, op, slowpath) ==> Enough(c, run, steps, k + 1, op, slowpath)
    ensures !CountStep(run[k], steps[k], op, slowpath) ==>
              (Enough(c, run, steps, k + 1, op, slowpath) <==> Enough(c, run, steps, k, op, slowpath))
  {
    CountedNext(run, steps, k, op, slowpath);
    SubsetCount(Counted(run, steps, k, op, slowpath), Counted(run, steps, k + 1, op, slowpath));
  }

  /** Enough replies were counted for operation `p` or a later one. */
  ghost predicate Reached(c: Config, run: seq<System>, steps: seq<Step>, k: nat, p: nat)
    requires k <= |steps| <= |run|
  {
    p == 0 || exists op: nat, slowpath :: p <= op && Enough(c, run, steps, k, op, slowpath)
  }

  lemma ReachedNext(c: Config, run: seq<System>, steps: seq<Step>, k: nat, p: nat)
    requires k < |steps| <= |run|
    ensures var step := steps[k];
            var now := step.Deliver? && step.m.PrepareOK? && CountStep(run[k], step, step.m.op, step.m.slowpath)
                       && p <= step.m.op && Enough(c, run, steps, k + 1, step.m.op, step.m.slowpath);
            Reached(c, run, steps, k + 1, p) <==> Reached(c, run, steps, k, p) || now
  {
    if p > 0 && Reached(c, run, steps, k, p) {
      var op: nat, slowpath :| p <= op && Enough(c, run, steps, k, op, slowpath);
      EnoughNext(c, run, steps, k, op, slowpath);
    }
    if p > 0 && Reached(c, run, steps, k + 1, p) {
      var op: nat, slowpath :| p <= op && Enough(c, run, steps, k + 1, op, slowpath);
      EnoughNext(c, run, steps, k, op, slowpath);
    }
  }

  ghost predicate VotesTell(run: seq<System>, steps: seq<Step>, k: nat, r: Replica)
    requires k <= |steps| <= |run|
  {
    forall op: nat, slowpath :: VotesFor(r, op, slowpath) == Counted(run, steps, k, op, slowpath)
  }

  ghost predicate CommitTells(c: Config, run: seq<System>, steps: seq<Step>, k: nat, committed: nat)
    requires k <= |steps| <= |run|
  {
    forall p: nat :: p <= committed <==> Reached(c, run, steps, k, p)
  }

  /** What the leader has come to in k steps. */
  ghost predicate Told(c: Config, run: seq<System>, steps: seq<Step>, k: nat, r: Replica)
    requires k <= |steps| <= |run|
  {
    && TableTells(steps[..k], r.clientTable) && r.log == Logged(steps[..k])
    && VotesTell(run, steps, k, r) && CommitTells(c, run, steps, k, r.lastCommitted)
  }

  // One reply.

  /** The leader has executed what it committed, and its slow path is its whole log. */
  predicate Leading(r: Replica) {
    InBounds(r) && r.lastSlowPath == |r.log| && r.executed == r.log[..r.lastCommitted]
  }

  /** With so many counted, whether the operation is committed by this reply. */
  predicate Acked(c: Config, r: Replica, op: nat, slowpath: bool, req: Request, counted: nat, r': Replica) {
    && r'.log == r.log && Leading(r')
    && r'.lastCommitted == (if Counts(r, op, slowpath, req) && counted >= Required(c, slowpath) then op
                            else r.lastCommitted)
  }

  /** A commit is announced by the reply that makes them enough; a conflict makes the leader prepare. */
  function AckSays(c: Config, r: Replica, op: nat, slowpath: bool, req: Request, counted: nat): set<Message> {
    if !(r.lastCommitted < op <= |r.log|) then {}
    else if !Counts(r, op, slowpath, req) then {Prepare(|r.log|, r.log[|r.log| - 1])}
    else if counted == Required(c, slowpath) then {Commit(op, r.log[op - 1])}
    else {}
  }

  function CountedBy(r: Replica, op: nat, replica: nat, slowpath: bool, req: Request): set<nat> {
    VotesFor(r, op, slowpath) + if Counts(r, op, slowpath, req) then {replica} else {}
  }

  lemma CommitIs(r: Replica, op: nat)
    requires Leading(r) && r.lastCommitted < op <= |r.log|
    ensures var s := CommitUpTo(r, op);
            s == r.(lastCommitted := op, executed := r.log[..op], clientTable := s.clientTable)
  {
    assert r.log[..r.lastCommitted] + r.log[r.lastCommitted..op] == r.log[..op];
  }

  lemma EnoughCommit(c: Config, s: Replica, op: nat, slowpath: bool)
    requires Leading(s) && InClientOrder(s.log, s.clientTable) && s.lastCommitted < op <= |s.log|
    ensures var (r', out) := CommitIfEnough(c, s, op, slowpath);
            var counted := |VotesFor(s, op, slowpath)|;
            && Leading(r') && r'.log == s.log && r'.clientTable == s.clientTable
            && r'.fastOKs == s.fastOKs && r'.slowOKs == s.slowOKs
            && r'.lastCommitted == (if counted >= Required(c, slowpath) then op else s.lastCommitted)
            && out == if counted == Required(c, slowpath) then {Commit(op, s.log[op - 1])} else {}
  {
    CommitIs(s, op);
    ExecuteKnown(s, op);
  }

  lemma VoteCounted(r: Replica, op: nat, replica: nat, slowpath: bool)
    ensures VotesDiffer(r, op, replica, slowpath, true, CountVote(r, op, replica, slowpath))
  {
    var s := CountVote(r, op, replica, slowpath);
    forall p: nat, b
      ensures VotesFor(s, p, b) == if p == op && b == slowpath then VotesFor(r, p, b) + {replica} else VotesFor(r, p, b)
    {
    }
  }

  /** The one vote, if it counts, is all that changes. */
  ghost predicate VotesDiffer(r: Replica, op: nat, replica: nat, slowpath: bool, counts: bool, r': Replica) {
    forall p: nat, b :: VotesFor(r', p, b) ==
      if counts && p == op && b == slowpath then VotesFor(r, p, b) + {replica} else VotesFor(r, p, b)
  }

  lemma SameVotes(r: Replica, op: nat, replica: nat, slowpath: bool, counts: bool, s: Replica, r': Replica)
    requires VotesDiffer(r, op, replica, slowpath, counts, s) && r'.fastOKs == s.fastOKs && r'.slowOKs == s.slowOKs
    ensures VotesDiffer(r, op, replica, slowpath, counts, r')
  {
    forall p: nat, b
      ensures VotesFor(r', p, b) == VotesFor(s, p, b)
    {
    }
  }

  /** What a reply comes to: the new state, what is said, and the votes. */
  ghost predicate AckResult(c: Config, r: Replica, op: nat, replica: nat, slowpath: bool, req: Request, r': Replica,
                            out: set<Message>)
  {
    var counted := |CountedBy(r, op, replica, slowpath, req)|;
    && Acked(c, r, op, slowpath, req, counted, r') && out == AckSays(c, r, op, slowpath, req, counted)
    && r'.clientTable == r.clientTable
    && VotesDiffer(r, op, replica, slowpath, Counts(r, op, slowpath, req), r')
  }

  lemma AckIgnored(c: Config, r: Replica, op: nat, replica: nat, slowpath: bool, req: Request)
    requires Leading(r) && !Counts(r, op, slowpath, req)
    ensures var (r', out) := HandlePrepareOK(c, r, op, replica, slowpath, req);
            AckResult(c, r, op, replica, slowpath, req, r', out)
  {
    assert CountedBy(r, op, replica, slowpath, req) == VotesFor(r, op, slowpath);
  }

  lemma AckCounted(c: Config, r: Replica, op: nat, replica: nat, slowpath: bool, req: Request, s: Replica)
    requires Leading(r) && InClientOrder(r.log, r.clientTable) && Counts(r, op, slowpath, req)
    requires s == CountVote(r, op, replica, slowpath)
    ensures var (r', out) := CommitIfEnough(c, s, op, slowpath);
            AckResult(c, r, op, replica, slowpath, req, r', out)
  {
    VoteCounted(r, op, replica, slowpath);
    assert VotesFor(s, op, slowpath) == CountedBy(r, op, replica, slowpath, req);
    EnoughCommit(c, s, op, slowpath);
    SameVotes(r, op, replica, slowpath, true, s, CommitIfEnough(c, s, op, slowpath).0);
  }

  lemma AckHandled(c: Config, r: Replica, op: nat, replica: nat, slowpath: bool, req: Request)
    requires Leading(r) && InClientOrder(r.log, r.clientTable)
    ensures var (r', out) := HandlePrepareOK(c, r, op, replica, slowpath, req);
            AckResult(c, r, op, replica, slowpath, req, r', out)
  {
    if Counts(r, op, slowpath, req) {
      AckCounted(c, r, op, replica, slowpath, req, CountVote(r, op, replica, slowpath));
    } else {
      AckIgnored(c, r, op, replica, slowpath, req);
    }
  }

  // Over runs.

  lemma AckVotes(run: seq<System>, steps: seq<Step>, k: nat, r: Replica, r': Replica)
    requires k < |steps| <= |run| && LEADER < |run[k].replicas| && r == Lead(run[k]) && VotesTell(run, steps, k, r)
    requires var step := steps[k]; step.Deliver? && step.i == LEADER && step.m.PrepareOK?
    requires var m := steps[k].m; VotesDiffer(r, m.op, m.replica, m.slowpath, Counts(r, m.op, m.slowpath, m.req), r')
    ensures VotesTell(run, steps, k + 1, r')
  {
    forall op: nat, slowpath
      ensures VotesFor(r', op, slowpath) == Counted(run, steps, k + 1, op, slowpath)
    {
      CountedNext(run, steps, k, op, slowpath);
      assert VotesFor(r, op, slowpath) == Counted(run, steps, k, op, slowpath);
    }
  }

  lemma AckTold(c: Config, run: seq<System>, steps: seq<Step>, k: nat, r: Replica, r': Replica, out: set<Message>)
    requires k < |steps| <= |run| && LEADER < |run[k].replicas| && r == Lead(run[k]) && Told(c, run, steps, k, r)
    requires var step := steps[k]; step.Deliver? && step.i == LEADER && step.m.PrepareOK?
    requires var m := steps[k].m; AckResult(c, r, m.op, m.replica, m.slowpath, m.req, r', out)
    ensures Told(c, run, steps, k + 1, r')
  {
    assert steps[..k + 1] == steps[..k] + [steps[k]];
    LoggedAfter(steps[..k], steps[k]);
    TableAfter(steps[..k], steps[k], r.clientTable);
    AckVotes(run, steps, k, r, r');
    AckCommits(c, run, steps, k, r, r');
  }

  lemma AckCommits(c: Config, run: seq<System>, steps: seq<Step>, k: nat, r: Replica, r': Replica)
    requires k < |steps| <= |run| && LEADER < |run[k].replicas| && r == Lead(run[k])
    requires CommitTells(c, run, steps, k, r.lastCommitted) && VotesTell(run, steps, k, r)
    requires var step := steps[k]; step.Deliver? && step.i == LEADER && step.m.PrepareOK?
    requires var m := steps[k].m;
             Acked(c, r, m.op, m.slowpath, m.req, |CountedBy(r, m.op, m.replica, m.slowpath, m.req)|, r')
    ensures CommitTells(c, run, steps, k + 1, r'.lastCommitted)
  {
    var m := steps[k].m;
    CountedNext(run, steps, k, m.op, m.slowpath);
    assert VotesFor(r, m.op, m.slowpath) == Counted(run, steps, k, m.op, m.slowpath);
    CommitsNext(c, run, steps, k, r.lastCommitted, r'.lastCommitted);
  }

  /** Given what one step counts, the commit point stays told. */
  lemma CommitsNext(c: Config, run: seq<System>, steps: seq<Step>, k: nat, committed: nat, committed': nat)
    requires k < |steps| <= |run| && CommitTells(c, run, steps, k, committed)
    requires var step := steps[k];
             var now := step.Deliver? && step.m.PrepareOK? && CountStep(run[k], step, step.m.op, step.m.slowpath)
                        && Enough(c, run, steps, k + 1, step.m.op, step.m.slowpath);
             committed' == if now then Max(committed, step.m.op) else committed
    ensures CommitTells(c, run, steps, k + 1, committed')
  {
    var n := k + 1;
    forall p: nat
      ensures p <= committed' <==> Reached(c, run, steps, n, p)
    {
      ReachedNext(c, run, steps, k, p);
      assert p <= committed <==> Reached(c, run, steps, k, p);
    }
  }

  /** A step that is not a reply to the leader. */
  lemma OtherTold(c: Config, run: seq<System>, steps: seq<Step>, k: nat, r: Replica, r': Replica)
    requires k < |steps| <= |run| && LEADER < |run[k].replicas| && r == Lead(run[k]) && Told(c, run, steps, k, r)
    requires !(steps[k].Deliver? && steps[k].i == LEADER && steps[k].m.PrepareOK?)
    requires r'.log == r.log + (if Brings(steps[..k], steps[k]) then [steps[k].m.req] else [])
    requires r'.clientTable == if Requested(steps[k]) then UpdateClientTable(r.clientTable, steps[k].m.req)
                               else r.clientTable
    requires r'.fastOKs == r.fastOKs && r'.slowOKs == r.slowOKs && r'.lastCommitted == r.lastCommitted
    ensures Told(c, run, steps, k + 1, r')
  {
    assert steps[..k + 1] == steps[..k] + [steps[k]];
    LoggedAfter(steps[..k], steps[k]);
    TableAfter(steps[..k], steps[k], r.clientTable);
    forall op: nat, slowpath
      ensures VotesFor(r', op, slowpath) == Counted(run, steps, k + 1, op, slowpath)
    {
      CountedNext(run, steps, k, op, slowpath);
      assert VotesFor(r, op, slowpath) == Counted(run, steps, k, op, slowpath);
    }
    CommitsNext(c, run, steps, k, r.lastCommitted, r'.lastCommitted);
  }

  lemma LeaderLeads(c: Config, s: System)
    requires Inv(c, s)
    ensures Leading(Lead(s)) && InClientOrder(Lead(s).log, Lead(s).clientTable)
  {
    assert Follows(LeaderLog(s), s.replicas[LEADER]);
  }

  lemma RequestTold(c: Config, run: seq<System>, steps: seq<Step>, k: nat, r: Replica, req: Request)
    requires k < |steps| <= |run| && LEADER < |run[k].replicas| && r == Lead(run[k]) && Told(c, run, steps, k, r)
    requires Leading(r) && steps[k] == Deliver(LEADER, ClientRequest(req))
    ensures Told(c, run, steps, k + 1, HandleRequest(LEADER, r, req).0)
  {
    assert Fits(r.clientTable, req) <==> IsNew(steps[..k], req);
    OtherTold(c, run, steps, k, r, HandleRequest(LEADER, r, req).0);
  }

  lemma StepTold(c: Config, run: seq<System>, steps: seq<Step>, k: nat)
    requires Run(c, run, steps) && k < |steps| && Inv(c, run[k]) && Told(c, run, steps, k, Lead(run[k]))
    ensures LEADER < |run[k + 1].replicas| && Told(c, run, steps, k + 1, Lead(run[k + 1]))
  {
    var s, s', step := run[k], run[k + 1], steps[k];
    assert NextAt(c, run, steps, k);
    LeaderLeads(c, s);
    if step.Deliver? && step.i == LEADER && step.m.PrepareOK? {
      var m := step.m;
      AckHandled(c, Lead(s), m.op, m.replica, m.slowpath, m.req);
      var (r', out) := HandlePrepareOK(c, Lead(s), m.op, m.replica, m.slowpath, m.req);
      AckTold(c, run, steps, k, Lead(s), r', out);
    } else if Requested(step) {
      RequestTold(c, run, steps, k, Lead(s), step.m.req);
    } else {
      OtherTold(c, run, steps, k, Lead(s), Lead(s'));
    }
  }

  lemma {:induction false} RunTold(c: Config, run: seq<System>, steps: seq<Step>, k: nat)
    requires Run(c, run, steps) && k < |run|
    ensures LEADER < |run[k].replicas| && Told(c, run, steps, k, Lead(run[k]))
    decreases k
  {
    Reachable(c, run, steps, k);
    if k == 0 {
      StartTold(c, run, steps);
    } else {
      RunTold(c, run, steps, k - 1);
      Reachable(c, run, steps, k - 1);
      StepTold(c, run, steps, k - 1);
    }
  }

  lemma StartTold(c: Config, run: seq<System>, steps: seq<Step>)
    requires Run(c, run, steps) && LEADER < |run[0].replicas|
    ensures Told(c, run, steps, 0, Lead(run[0]))
  {
    assert steps[..0] == [];
    forall op: nat, slowpath
      ensures Counted(run, steps, 0, op, slowpath) == {}
    {
    }
  }

  /**
   * The leader's log is exactly the requests that were new when it received them, in that order; and it has
   * committed exactly up to where enough replies were counted.
   */
  lemma LeaderExactly(c: Config, run: seq<System>, steps: seq<Step>, k: nat)
    requires Run(c, run, steps) && k < |run|
    ensures LEADER < |run[k].replicas|
    ensures var r := Lead(run[k]);
            && r.log == Logged(steps[..k]) && (forall p: nat :: p <= r.lastCommitted <==> Reached(c, run, steps, k, p))
            && r.lastCommitted <= |r.log| && r.executed == r.log[..r.lastCommitted]
  {
    RunTold(c, run, steps, k);
    Reachable(c, run, steps, k);
    LeaderLeads(c, run[k]);
  }

  // Step by step.

  /** What is known of a follower that receives a message of a run. */
  lemma FollowerKnown(c: Config, run: seq<System>, steps: seq<Step>, k: nat, i: nat, m: Message)
    requires Run(c, run, steps) && k < |steps| && steps[k] == Deliver(i, m) && i != LEADER
    ensures LEADER < i < |run[k].replicas| == |run[k + 1].replicas|
    ensures var l, r := LeaderLog(run[k]), run[k].replicas[i];
            && Follows(l, r) && MessageOk(l, run[k].replicas, m) && Deliverable(run[k], i, m)
            && run[k + 1].replicas[i] == Receive(c, i, r, m).0
            && run[k + 1].sent == run[k].sent + Receive(c, i, r, m).1
            && run[k + 1].replicas == run[k].replicas[i := run[k + 1].replicas[i]]
  {
    Reachable(c, run, steps, k);
    assert NextAt(c, run, steps, k);
    assert Follows(LeaderLog(run[k]), run[k].replicas[i]);
  }

  /** The first `n` operations of the leader's log, and what the follower has after them. */
  function Patched(l: seq<Request>, log: seq<Request>, n: nat): seq<Request>
    requires n <= |l|
  {
    l[..n] + if n <= |log| then log[n..] else []
  }

  /** The requests lo..hi-1 of the log, counted from 0. */
  function Span(log: seq<Request>, lo: nat, hi: nat): set<Request> {
    set j | lo <= j < hi && j < |log| :: log[j]
  }

  /** The numbers of these requests are no longer accepted, and no others have changed. */
  ghost predicate Notes(t: map<nat, nat>, reqs: set<Request>, t': map<nat, nat>) {
    forall q :: Fits(t', q) <==> Fits(t, q) && AboveAll(q, reqs)
  }

  predicate AboveAll(q: Request, reqs: set<Request>) {
    forall e :: e in reqs && e.clientid == q.clientid ==> e.clientreqid < q.clientreqid
  }

  /** A request at the leader is appended exactly when it is new. */
  lemma LeaderRequestEffect(c: Config, run: seq<System>, steps: seq<Step>, k: nat, req: Request)
    requires Run(c, run, steps) && k < |steps| && steps[k] == Deliver(LEADER, ClientRequest(req))
    ensures LEADER < |run[k].replicas| == |run[k + 1].replicas|
    ensures var r, r' := Lead(run[k]), Lead(run[k + 1]);
            && r'.log == r.log + (if IsNew(steps[..k], req) then [req] else [])
            && r'.lastCommitted == r.lastCommitted && r'.executed == r.executed
            && run[k + 1].sent == run[k].sent && run[k + 1].replicas == run[k].replicas[LEADER := r']
  {
    RunTold(c, run, steps, k);
    Reachable(c, run, steps, k);
    assert NextAt(c, run, steps, k);
    assert Fits(Lead(run[k]).clientTable, req) <==> IsNew(steps[..k], req);
  }

  /** A follower appends a request, and replies on the fast path, exactly when its number is new to it. */
  lemma FollowerRequestEffect(c: Config, run: seq<System>, steps: seq<Step>, k: nat, i: nat, req: Request)
    requires Run(c, run, steps) && k < |steps| && steps[k] == Deliver(i, ClientRequest(req)) && i != LEADER
    ensures LEADER < i < |run[k].replicas| == |run[k + 1].replicas|
    ensures var r, r' := run[k].replicas[i], run[k + 1].replicas[i];
            var fits := Fits(r.clientTable, req);
            && r'.log == r.log + (if fits then [req] else []) && Notes(r.clientTable, {req}, r'.clientTable)
            && r'.lastFastPath == |r'.log| && r'.lastSlowPath == r.lastSlowPath
            && r'.lastCommitted == r.lastCommitted && r'.executed == r.executed
            && run[k + 1].sent == run[k].sent + (if fits then {PrepareOK(|r'.log|, i, false, req)} else {})
            && run[k + 1].replicas == run[k].replicas[i := r']
  {
    FollowerKnown(c, run, steps, k, i, steps[k].m);
  }

  lemma AdoptIs(l: seq<Request>, r: Replica)
    requires Follows(l, r) && r.lastSlowPath < |l|
    ensures var s := Adopt(r, l[r.lastSlowPath]);
            s == r.(lastFastPath := Max(r.lastFastPath, r.lastSlowPath + 1), lastSlowPath := r.lastSlowPath + 1,
                    log := Patched(l, r.log, r.lastSlowPath + 1))
  {
    var n := r.lastSlowPath;
    var s := Adopt(r, l[n]);
    assert s.log == Patched(l, r.log, n + 1);
  }

  /**
   * The prepare that comes next puts the leader's request on the follower's slow path; it is acknowledged exactly
   * when it is there then, and otherwise a transfer is asked for.
   */
  lemma PrepareEffect(c: Config, run: seq<System>, steps: seq<Step>, k: nat, i: nat, op: nat, req: Request)
    requires Run(c, run, steps) && k < |steps| && steps[k] == Deliver(i, Prepare(op, req)) && i != LEADER
    ensures LEADER < i < |run[k].replicas| == |run[k + 1].replicas|
    ensures var l, r, r' := LeaderLog(run[k]), run[k].replicas[i], run[k + 1].replicas[i];
            && r'.lastSlowPath == (if op == r.lastSlowPath + 1 then op else r.lastSlowPath) <= |l|
            && r'.log == Patched(l, r.log, r'.lastSlowPath) && r'.lastFastPath == |r'.log|
            && r'.lastCommitted == r.lastCommitted && r'.executed == r.executed
            && Notes(r.clientTable, if op == r.lastSlowPath + 1 then {req} else {}, r'.clientTable)
            && run[k + 1].sent == run[k].sent + {if op <= r'.lastSlowPath then PrepareOK(op, i, true, req)
                                                 else RequestStateTransfer(i, r.lastCommitted)}
            && run[k + 1].replicas == run[k].replicas[i := r']
  {
    FollowerKnown(c, run, steps, k, i, steps[k].m);
    var l, r := LeaderLog(run[k]), run[k].replicas[i];
    if op == r.lastSlowPath + 1 {
      AdoptIs(l, r);
    } else {
      assert r.log == Patched(l, r.log, r.lastSlowPath);
    }
  }

  lemma {:induction false} ExecuteTable(r: Replica, upto: nat)
    requires upto <= |r.log|
    ensures ExecuteUpTo(r, upto).clientTable == RecordRange(r.clientTable, r.log, r.lastCommitted, upto)
    decreases upto
  {
    if r.lastCommitted < upto {
      ExecuteTable(r, upto - 1);
    }
  }

  lemma {:induction false} NotesRange(t: map<nat, nat>, log: seq<Request>, lo: nat, hi: nat)
    requires hi <= |log|
    ensures Notes(t, Span(log, lo, hi), RecordRange(t, log, lo, hi))
    decreases hi
  {
    if lo < hi {
      var mid := RecordRange(t, log, lo, hi - 1);
      NotesRange(t, log, lo, hi - 1);
      NotesOne(mid, log[hi - 1]);
      NotesTwice(t, Span(log, lo, hi - 1), mid, {log[hi - 1]}, UpdateClientTable(mid, log[hi - 1]));
      SpanNext(log, lo, hi - 1);
    } else {
      NotesNone(t);
      assert Span(log, lo, hi) == {};
    }
  }

  lemma SpanNext(log: seq<Request>, lo: nat, hi: nat)
    requires lo <= hi < |log|
    ensures Span(log, lo, hi + 1) == Span(log, lo, hi) + {log[hi]}
  {
  }

  lemma NotesNone(t: map<nat, nat>)
    ensures Notes(t, {}, t)
  {
  }

  lemma NotesOne(t: map<nat, nat>, req: Request)
    ensures Notes(t, {req}, UpdateClientTable(t, req))
  {
  }

  lemma NotesTwice(t: map<nat, nat>, a: set<Request>, t1: map<nat, nat>, b: set<Request>, t2: map<nat, nat>)
    requires Notes(t, a, t1) && Notes(t1, b, t2)
    ensures Notes(t, a + b, t2)
  {
    forall q
      ensures Fits(t2, q) <==> Fits(t, q) && AboveAll(q, a + b)
    {
      assert AboveAll(q, a + b) <==> AboveAll(q, a) && AboveAll(q, b);
    }
  }

  /** Committing what agrees with the leader's log. */
  lemma FollowerCommits(l: seq<Request>, r: Replica, upto: nat)
    requires InBounds(r) && upto <= |r.log| && r.executed == r.log[..r.lastCommitted]
    requires AgreeUpTo(l, r.log, Max(r.lastSlowPath, upto))
    ensures var s, n := CommitUpTo(r, upto), Max(r.lastCommitted, upto);
            && s == r.(lastCommitted := n, executed := l[..n], lastSlowPath := Max(r.lastSlowPath, upto),
                       clientTable := s.clientTable)
            && Notes(r.clientTable, Span(l, r.lastCommitted, n), s.clientTable)
  {
    var n := Max(r.lastCommitted, upto);
    assert r.log[..n] == l[..n] && Span(r.log, r.lastCommitted, n) == Span(l, r.lastCommitted, n);
    assert r.log[..r.lastCommitted] + r.log[r.lastCommitted..n] == r.log[..n];
    ExecuteTable(r, upto);
    NotesRange(r.clientTable, r.log, r.lastCommitted, n);
  }

  lemma CommitHandled(l: seq<Request>, i: nat, r: Replica, op: nat, req: Request)
    requires Follows(l, r) && 1 <= op <= |l| && req == l[op - 1]
    requires r.lastCommitted < op <= Min(r.lastFastPath, r.lastSlowPath + 1)
    ensures var (r', out) := HandleCommit(i, r, op, req);
            && r' == r.(log := Patched(l, r.log, Max(r.lastSlowPath, op)), lastCommitted := op, executed := l[..op],
                        lastSlowPath := Max(r.lastSlowPath, op), clientTable := r'.clientTable)
            && Notes(r.clientTable, Span(l, r.lastCommitted, op), r'.clientTable) && out == {}
  {
    var s := if op > r.lastSlowPath then r.(log := r.log[op - 1 := req]) else r;
    assert s.log == Patched(l, r.log, Max(r.lastSlowPath, op));
    assert r.log[..r.lastCommitted] == s.log[..r.lastCommitted];
    FollowerCommits(l, s, op);
  }

  /**
   * A commit executes the leader's operations up to it exactly when the follower's slow path, with this operation,
   * reaches it; a transfer is asked for exactly when the follower has no such operation at all.
   */
  lemma CommitEffect(c: Config, run: seq<System>, steps: seq<Step>, k: nat, i: nat, op: nat, req: Request)
    requires Run(c, run, steps) && k < |steps| && steps[k] == Deliver(i, Commit(op, req)) && i != LEADER
    ensures LEADER < i < |run[k].replicas| == |run[k + 1].replicas|
    ensures var l, r, r' := LeaderLog(run[k]), run[k].replicas[i], run[k + 1].replicas[i];
            var commits := r.lastCommitted < op <= Min(r.lastFastPath, r.lastSlowPath + 1);
            && op <= |l| && r.lastCommitted <= r'.lastCommitted <= |l| && r'.lastSlowPath <= |l|
            && r'.executed == (if commits then l[..op] else r.executed) && r'.executed == l[..r'.lastCommitted]
            && r'.lastSlowPath == (if commits then Max(r.lastSlowPath, op) else r.lastSlowPath)
            && r'.log == Patched(l, r.log, r'.lastSlowPath) && r'.lastFastPath == |r'.log|
            && Notes(r.clientTable, Span(l, r.lastCommitted, r'.lastCommitted), r'.clientTable)
            && run[k + 1].sent ==
                 run[k].sent + (if op > r.lastFastPath then {RequestStateTransfer(i, r.lastCommitted)} else {})
            && run[k + 1].replicas == run[k].replicas[i := r']
  {
    FollowerKnown(c, run, steps, k, i, steps[k].m);
    var l, r := LeaderLog(run[k]), run[k].replicas[i];
    assert r.log == Patched(l, r.log, r.lastSlowPath) && r.log[..r.lastCommitted] == l[..r.lastCommitted];
    if r.lastCommitted < op <= Min(r.lastFastPath, r.lastSlowPath + 1) {
      CommitHandled(l, i, r, op, req);
    } else {
      assert Span(l, r.lastCommitted, r.lastCommitted) == {};
      assert run[k + 1].replicas[i] == r;
    }
  }

  /** The leader answers a transfer request with all that follows the requester's commit point. */
  lemma TransferRequestEffect(c: Config, run: seq<System>, steps: seq<Step>, k: nat, from: nat, op: nat)
    requires Run(c, run, steps) && k < |steps| && steps[k] == Deliver(LEADER, RequestStateTransfer(from, op))
    ensures LEADER < |run[k].replicas| && run[k + 1].replicas == run[k].replicas
    ensures var l := LeaderLog(run[k]);
            run[k + 1].sent == run[k].sent +
              {StateTransfer(from, op + 1, if op <= |l| then l[op..] else [], Lead(run[k]).lastCommitted)}
  {
    Reachable(c, run, steps, k);
    assert NextAt(c, run, steps, k);
    assert run[k].replicas[LEADER := run[k].replicas[LEADER]] == run[k].replicas;
  }

  /** The follower, with the leader's first `n` operations taken over. */
  predicate TookOver(l: seq<Request>, r: Replica, n: nat, s: Replica) {
    && r.lastSlowPath <= n <= |l| && Follows(l, s)
    && s == r.(lastFastPath := |s.log|, lastSlowPath := n, log := Patched(l, r.log, n))
  }

  lemma {:induction false} TakesOver(l: seq<Request>, r: Replica, begin: nat, entries: seq<Request>)
    requires Follows(l, r) && 1 <= begin <= r.lastCommitted + 1 && PartOf(l, begin - 1, entries)
    ensures TookOver(l, r, Max(r.lastSlowPath, begin - 1 + |entries|), TakeOver(r, begin, entries))
    decreases |entries|
  {
    if entries == [] {
      TookNone(l, r);
    } else {
      var e := |entries| - 1;
      PartBefore(l, begin - 1, entries);
      TakesOver(l, r, begin, entries[..e]);
      assert entries[e] == l[begin + e - 1];
      TakesLast(l, r, begin + e, TakeOver(r, begin, entries[..e]), TakeOver(r, begin, entries));
    }
  }

  lemma TookNone(l: seq<Request>, r: Replica)
    requires Follows(l, r)
    ensures TookOver(l, r, r.lastSlowPath, r)
  {
    assert r.log == Patched(l, r.log, r.lastSlowPath);
  }

  /** Operation `op`, after those before it. */
  lemma TakesLast(l: seq<Request>, r: Replica, op: nat, mid: Replica, s: Replica)
    requires Follows(l, r) && 1 <= op <= |l| && TookOver(l, r, Max(r.lastSlowPath, op - 1), mid)
    requires s == if op <= mid.lastSlowPath then mid else Adopt(mid, l[op - 1])
    ensures TookOver(l, r, Max(r.lastSlowPath, op), s)
  {
    if op > mid.lastSlowPath {
      TakesOne(l, r, mid);
    }
  }

  lemma PartBefore(l: seq<Request>, b: nat, entries: seq<Request>)
    requires PartOf(l, b, entries) && entries != []
    ensures PartOf(l, b, entries[..|entries| - 1])
  {
  }

  lemma TakesOne(l: seq<Request>, r: Replica, mid: Replica)
    requires Follows(l, r) && TookOver(l, r, mid.lastSlowPath, mid) && mid.lastSlowPath < |l|
    ensures TookOver(l, r, mid.lastSlowPath + 1, Adopt(mid, l[mid.lastSlowPath]))
  {
    var n := mid.lastSlowPath;
    AdoptIs(l, mid);
    assert Patched(l, mid.log, n + 1) == Patched(l, r.log, n + 1);
    AdoptFollows(l, mid, l[n]);
  }

  function Ack(me: nat, log: seq<Request>, op: nat): Message
    requires 1 <= op <= |log|
  {
    PrepareOK(op, me, true, log[op - 1])
  }

  function Acks(me: nat, log: seq<Request>, lo: nat, hi: nat): set<Message>
    requires 1 <= lo && hi <= |log|
  {
    set op: nat | lo <= op <= hi :: Ack(me, log, op)
  }

  /** The acknowledgements for the operations lo..hi of the log beyond the committed ones. */
  lemma {:induction false} SlowOKsAre(me: nat, log: seq<Request>, committed: nat, lo: nat, hi: nat)
    requires hi <= |log|
    ensures SlowOKs(me, log, committed, lo, hi) == Acks(me, log, Max(lo, committed + 1), hi)
    decreases hi
  {
    var from := Max(lo, committed + 1);
    if hi >= from {
      SlowOKsAre(me, log, committed, lo, hi - 1);
      assert Acks(me, log, from, hi) == Acks(me, log, from, hi - 1) + {Ack(me, log, hi)};
    } else {
      assert Acks(me, log, from, hi) == {};
    }
  }

  /** The requests a transfer records: what it executes, and from the old slow path's end on. */
  function Transferred(l: seq<Request>, r: Replica, n: nat, p: nat): set<Request> {
    Span(l, r.lastCommitted, p) + Span(l, FirstNew(r.lastSlowPath, p) - 1, n)
  }

  /** Where a transfer leads: the slow path to `n` and the commit point to `p`. */
  predicate BroughtTo(l: seq<Request>, r: Replica, n: nat, p: nat, s: Replica) {
    && r.lastSlowPath <= n <= |l| && p <= n
    && s == r.(lastFastPath := |s.log|, lastSlowPath := n, log := Patched(l, r.log, n), lastCommitted := p,
               executed := l[..p], clientTable := s.clientTable)
  }

  lemma TransferCommits(l: seq<Request>, r: Replica, begin: nat, entries: seq<Request>, committed: nat)
    requires Follows(l, r) && 1 <= begin <= r.lastCommitted + 1 && PartOf(l, begin - 1, entries)
    requires committed <= begin - 1 + |entries|
    ensures var n, p := Max(r.lastSlowPath, begin - 1 + |entries|), Max(r.lastCommitted, committed);
            var s := CommitUpTo(TakeOver(r, begin, entries), committed);
            BroughtTo(l, r, n, p, s) && Notes(r.clientTable, Span(l, r.lastCommitted, p), s.clientTable)
  {
    TakesOver(l, r, begin, entries);
    FollowerCommits(l, TakeOver(r, begin, entries), committed);
  }

  lemma BroughtAgrees(l: seq<Request>, r: Replica, n: nat, p: nat, s: Replica)
    requires BroughtTo(l, r, n, p, s)
    ensures AgreeUpTo(l, s.log, n)
  {
  }

  lemma TransferHandled(l: seq<Request>, i: nat, r: Replica, begin: nat, entries: seq<Request>, committed: nat)
    requires Follows(l, r) && 1 <= begin <= r.lastCommitted + 1 && PartOf(l, begin - 1, entries)
    requires committed <= begin - 1 + |entries|
    ensures var (r', out) := HandleStateTransfer(i, r, begin, entries, committed);
            var n, p := Max(r.lastSlowPath, begin - 1 + |entries|), Max(r.lastCommitted, committed);
            && BroughtTo(l, r, n, p, r') && Notes(r.clientTable, Transferred(l, r, n, p), r'.clientTable)
            && out == Acks(i, l, Max(r.lastSlowPath, p + 1), n)
  {
    var n, p := Max(r.lastSlowPath, begin - 1 + |entries|), Max(r.lastCommitted, committed);
    TransferCommits(l, r, begin, entries, committed);
    Acknowledged(l, i, r, n, p, CommitUpTo(TakeOver(r, begin, entries), committed));
  }

  lemma Acknowledged(l: seq<Request>, i: nat, r: Replica, n: nat, p: nat, s: Replica)
    requires BroughtTo(l, r, n, p, s) && Notes(r.clientTable, Span(l, r.lastCommitted, p), s.clientTable)
    ensures n <= |s.log|
    ensures var (r', out) := Acknowledge(i, s, r.lastSlowPath);
            && BroughtTo(l, r, n, p, r') && Notes(r.clientTable, Transferred(l, r, n, p), r'.clientTable)
            && out == Acks(i, l, Max(r.lastSlowPath, p + 1), n)
  {
    BroughtAgrees(l, r, n, p, s);
    SlowOKsAre(i, s.log, p, r.lastSlowPath, n);
    AcksAgree(i, s.log, l, Max(r.lastSlowPath, p + 1), n);
    TransferNotes(l, r.clientTable, s, r.lastCommitted, p, FirstNew(r.lastSlowPath, p) - 1, n);
  }

  lemma TransferNotes(l: seq<Request>, t: map<nat, nat>, s: Replica, from: nat, p: nat, lo: nat, n: nat)
    requires Notes(t, Span(l, from, p), s.clientTable) && AgreeUpTo(l, s.log, n)
    ensures Notes(t, Span(l, from, p) + Span(l, lo, n), RecordRange(s.clientTable, s.log, lo, n))
  {
    NotesRange(s.clientTable, s.log, lo, n);
    assert Span(s.log, lo, n) == Span(l, lo, n);
    NotesTwice(t, Span(l, from, p), s.clientTable, Span(l, lo, n), RecordRange(s.clientTable, s.log, lo, n));
  }

  lemma AcksAgree(i: nat, log: seq<Request>, l: seq<Request>, lo: nat, hi: nat)
    requires AgreeUpTo(l, log, hi) && lo >= 1
    ensures Acks(i, log, lo, hi) == Acks(i, l, lo, hi)
  {
    forall op: nat | lo <= op <= hi
      ensures Ack(i, log, op) == Ack(i, l, op)
    {
    }
  }

  /**
   * A transfer brings the follower's slow path at least to where it ends and executes up to its commit point; the
   * uncommitted operations from the old slow path's last one on are acknowledged.
   */
  lemma TransferEffect(c: Config, run: seq<System>, steps: seq<Step>, k: nat, i: nat, begin: nat, entries: seq<Request>,
                       committed: nat)
    requires Run(c, run, steps) && k < |steps| && i != LEADER
    requires steps[k] == Deliver(i, StateTransfer(i, begin, entries, committed))
    ensures LEADER < i < |run[k].replicas| == |run[k + 1].replicas|
    ensures var l, r, r' := LeaderLog(run[k]), run[k].replicas[i], run[k + 1].replicas[i];
            && begin >= 1 && r'.lastSlowPath == Max(r.lastSlowPath, begin - 1 + |entries|) <= |l|
            && r'.log == Patched(l, r.log, r'.lastSlowPath) && r'.lastFastPath == |r'.log|
            && r'.lastCommitted == Max(r.lastCommitted, committed) <= |l| && r'.executed == l[..r'.lastCommitted]
            && Notes(r.clientTable, Transferred(l, r, r'.lastSlowPath, r'.lastCommitted), r'.clientTable)
            && run[k + 1].sent ==
                 run[k].sent + Acks(i, l, Max(r.lastSlowPath, r'.lastCommitted + 1), r'.lastSlowPath)
            && run[k + 1].replicas == run[k].replicas[i := r']
  {
    FollowerKnown(c, run, steps, k, i, steps[k].m);
    TransferHandled(LeaderLog(run[k]), i, run[k].replicas[i], begin, entries, committed);
  }

  /**
   * A reply at the leader commits exactly when it counts and enough have been counted; the one that makes them
   * enough is announced, and one that conflicts makes the leader send its prepare.
   */
  lemma AckEffect(c: Config, run: seq<System>, steps: seq<Step>, k: nat, op: nat, i: nat, slowpath: bool, req: Request)
    requires Run(c, run, steps) && k < |steps| && steps[k] == Deliver(LEADER, PrepareOK(op, i, slowpath, req))
    ensures LEADER < |run[k].replicas| == |run[k + 1].replicas|
    ensures var r, r' := Lead(run[k]), Lead(run[k + 1]);
            var counted := |Counted(run, steps, k + 1, op, slowpath)|;
            && Leading(r) && Acked(c, r, op, slowpath, req, counted, r')
            && run[k + 1].sent == run[k].sent + AckSays(c, r, op, slowpath, req, counted)
            && run[k + 1].replicas == run[k].replicas[LEADER := r']
  {
    RunTold(c, run, steps, k);
    Reachable(c, run, steps, k);
    assert NextAt(c, run, steps, k);
    LeaderLeads(c, run[k]);
    AckHandled(c, Lead(run[k]), op, i, slowpath, req);
    CountedNext(run, steps, k, op, slowpath);
    assert VotesFor(Lead(run[k]), op, slowpath) == Counted(run, steps, k, op, slowpath);
  }

  /** The timer sends the last request as a prepare exactly while something is uncommitted. */
  lemma ResendEffect(c: Config, run: seq<System>, steps: seq<Step>, k: nat)
    requires Run(c, run, steps) && k < |steps| && steps[k].Resend?
    ensures LEADER < |run[k].replicas| && run[k + 1].replicas == run[k].replicas
    ensures var l := LeaderLog(run[k]);
            run[k + 1].sent ==
              run[k].sent + (if |l| > Lead(run[k]).lastCommitted then {Prepare(|l|, l[|l| - 1])} else {})
  {
    Reachable(c, run, steps, k);
    LeaderLeads(c, run[k]);
    assert NextAt(c, run, steps, k);
  }

  /** Messages that are not meant for the replica change nothing. */
  lemma OthersIgnored(c: Config, run: seq<System>, steps: seq<Step>, k: nat, i: nat, m: Message)
    requires Run(c, run, steps) && k < |steps| && steps[k] == Deliver(i, m)
    requires if i == LEADER then m.Prepare? || m.Commit? || m.StateTransfer?
             else m.PrepareOK? || m.RequestStateTransfer? || (m.StateTransfer? && m.dst != i)
    ensures run[k + 1].replicas == run[k].replicas && run[k + 1].sent == run[k].sent
  {
    assert NextAt(c, run, steps, k);
    assert run[k].replicas[i := run[k].replicas[i]] == run[k].replicas;
  }
}

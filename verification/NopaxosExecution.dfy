/**
 * Executing the log bit by bit, with duplicate suppression through the client table, against executing
 * it from the start in one go. Leadership enters twice: a replica keeps a result if it leads the view it
 * is in when it executes, and answers if it leads the view of the log entry.
 */
module NopaxosExecution {
  import opened Numbers
  import opened Logs
  import opened Nopaxos

  /** The application: what a request returns after the requests executed before it. */
  type App = (seq<Request>, Request) -> string

  /** One replica of a group, with its application. */
  datatype Host = Host(app: App, me: nat, replicas: nat)

  /** A log entry belongs to the view in which it was logged. */
  datatype Logged = Logged(content: Content, view: nat)

  datatype ClientEntry = ClientEntry(last: nat, result: string)

  datatype Answer = Answer(op: nat, id: RequestId, result: string)

  datatype Exec = Exec(executed: seq<Request>, table: map<nat, ClientEntry>, out: seq<Answer>)

  predicate Leads(h: Host, view: nat) {
    h.replicas > 0 && view % h.replicas == h.me
  }

  /** The table after executing a request; a fresh entry starts at request number 0, and only a leader keeps results. */
  function Recorded(table: map<nat, ClientEntry>, req: Request, result: string, leads: bool): map<nat, ClientEntry> {
    var entry := if req.clientid in table then table[req.clientid] else ClientEntry(0, "");
    table[req.clientid := if entry.last == req.clientreqid then entry
                          else ClientEntry(req.clientreqid, if leads then result else entry.result)]
  }

  function Answers(leads: bool, op: nat, req: Request, result: string): seq<Answer> {
    if leads then [Answer(op, Id(req), result)] else []
  }

  predicate Stale(table: map<nat, ClientEntry>, req: Request) {
    req.clientid in table && req.clientreqid < table[req.clientid].last
  }

  predicate Duplicate(table: map<nat, ClientEntry>, req: Request) {
    req.clientid in table && req.clientreqid == table[req.clientid].last
  }

  /** One operation of the log, executed in the given view. */
  function Apply(h: Host, view: nat, st: Exec, op: nat, e: Logged): Exec {
    match e.content
    case NoOp => st
    case Op(req) =>
      if Stale(st.table, req) then st
      else if Duplicate(st.table, req) then
        st.(out := st.out + Answers(Leads(h, e.view), op, req, st.table[req.clientid].result))
      else
        var result := h.app(st.executed, req);
        Exec(st.executed + [req], Recorded(st.table, req, result, Leads(h, view)),
             st.out + Answers(Leads(h, e.view), op, req, result))
  }

  /** The first n operations executed from nothing, each in the view the replica was in at the time. */
  function Replay(h: Host, log: seq<Logged>, views: seq<nat>, n: nat): Exec
    requires n <= |log| && n <= |views|
  {
    if n == 0 then Exec([], map[], [])
    else Apply(h, views[n - 1], Replay(h, log, views, n - 1), n, log[n - 1])
  }

  /** Replaying looks only at the operations it replays. */
  lemma {:induction false} ReplaySame(h: Host, a: seq<Logged>, b: seq<Logged>, us: seq<nat>, vs: seq<nat>, n: nat)
    requires n <= |a| && n <= |b| && a[..n] == b[..n]
    requires n <= |us| && n <= |vs| && us[..n] == vs[..n]
    ensures Replay(h, a, us, n) == Replay(h, b, vs, n)
    decreases n
  {
    if n > 0 {
      assert a[..n][n - 1] == b[..n][n - 1] && a[..n - 1] == a[..n][..n - 1] && b[..n - 1] == b[..n][..n - 1];
      assert us[..n][n - 1] == vs[..n][n - 1] && us[..n - 1] == us[..n][..n - 1] && vs[..n - 1] == vs[..n][..n - 1];
      ReplaySame(h, a, b, us, vs, n - 1);
    }
  }

  /** The log may grow, its unexecuted part may be overwritten and views may change between calls. */
  class Executor {
    const h: Host
    var view: nat
    var log: seq<Logged>
    var lastExecuted: nat
    var executed: seq<Request>
    var table: map<nat, ClientEntry>
    var out: seq<Answer>
    /** The view in which each operation was executed. */
    ghost var views: seq<nat>

    function State(): Exec
      reads this
    {
      Exec(executed, table, out)
    }

    /** Whatever calls came before, the state is that of one replay. */
    ghost predicate Valid()
      reads this
    {
      lastExecuted == |views| && lastExecuted <= |log| && State() == Replay(h, log, views, lastExecuted)
    }

    constructor (h: Host)
      ensures Valid() && log == [] && view == 0 && this.h == h
    {
      this.h, view := h, 0;
      log, lastExecuted, executed, table, out, views := [], 0, [], map[], [], [];
    }

    method EnterView(v: nat)
      requires Valid()
      modifies this`view
      ensures Valid() && view == v
    {
      view := v;
    }

    method Append(content: Content)
      requires Valid()
      modifies this`log
      ensures Valid() && log == old(log) + [Logged(content, view)]
    {
      ReplaySame(h, log, log + [Logged(content, view)], views, views, lastExecuted);
      log := log + [Logged(content, view)];
    }

    method Overwrite(op: nat)
      requires Valid() && lastExecuted < op <= |log|
      modifies this`log
      ensures Valid() && log == old(log)[op - 1 := old(log)[op - 1].(content := NoOp)]
    {
      var log' := log[op - 1 := log[op - 1].(content := NoOp)];
      ReplaySame(h, log, log', views, views, lastExecuted);
      log := log';
    }

    method UpdateClientTable(req: Request, result: string)
      requires !Stale(table, req)
      modifies this`table
      ensures table == Recorded(old(table), req, result, Leads(h, view))
    {
      if req.clientid !in table {
        table := table[req.clientid := ClientEntry(0, "")];
      }
      var entry := table[req.clientid];
      if entry.last == req.clientreqid {
        return;
      }
      table := table[req.clientid := ClientEntry(req.clientreqid, if Leads(h, view) then result else entry.result)];
    }

    /** Executes one received operation. */
    method Execute(op: nat, req: Request, entryView: nat)
      modifies this`executed, this`table, this`out
      ensures State() == Apply(h, view, old(State()), op, Logged(Op(req), entryView))
    {
      var result: Option<string> := None;
      if req.clientid in table {
        if req.clientreqid < table[req.clientid].last {
          return;
        }
        if req.clientreqid == table[req.clientid].last {
          result := Some(table[req.clientid].result);
        }
      }
      if result == None {
        result := Some(h.app(executed, req));
        UpdateClientTable(req, result.value);
        executed := executed + [req];
      }
      if Leads(h, entryView) {
        out := out + [Answer(op, Id(req), result.value)];
      }
    }

    method ExecuteUpTo(opnum: nat)
      requires Valid() && opnum <= |log|
      modifies this`lastExecuted, this`executed, this`table, this`out, this`views
      ensures Valid() && lastExecuted == Max(old(lastExecuted), opnum)
      ensures old(views) <= views && forall i :: |old(views)| <= i < |views| ==> views[i] == view
    {
      if opnum <= lastExecuted {
        return;
      }
      var op := lastExecuted + 1;
      while op <= opnum
        invariant op == lastExecuted + 1 && old(lastExecuted) <= lastExecuted <= opnum && Valid()
        invariant old(views) <= views && forall i :: |old(views)| <= i < |views| ==> views[i] == view
      {
        ReplaySame(h, log, log, views, views + [view], lastExecuted);
        lastExecuted := op;
        views := views + [view];
        if log[op - 1].content.Op? {
          Execute(op, log[op - 1].content.req, log[op - 1].view);
        }
        op := op + 1;
      }
    }
  }

  // What a replay executes.

  /** Per client, request numbers increase along what was executed. */
  predicate InOrder(executed: seq<Request>) {
    forall a, b :: 0 <= a < b < |executed| && executed[a].clientid == executed[b].clientid ==>
      executed[a].clientreqid < executed[b].clientreqid
  }

  /** The table knows each client's last executed request. */
  ghost predicate TableOk(st: Exec) {
    && (forall a :: 0 <= a < |st.executed| ==> CoversRequest(st, a))
    && (forall c :: c in st.table ==> exists a: nat :: IsLast(st, c, a))
  }

  predicate CoversRequest(st: Exec, a: nat)
    requires a < |st.executed|
  {
    st.executed[a].clientid in st.table && st.executed[a].clientreqid <= st.table[st.executed[a].clientid].last
  }

  predicate IsLast(st: Exec, c: nat, a: nat) {
    && c in st.table && a < |st.executed|
    && st.executed[a].clientid == c && st.executed[a].clientreqid == st.table[c].last
  }

  lemma ExecuteOk(h: Host, view: nat, st: Exec, op: nat, req: Request, at: nat)
    requires InOrder(st.executed) && TableOk(st) && !Stale(st.table, req) && !Duplicate(st.table, req)
    ensures var st' := Apply(h, view, st, op, Logged(Op(req), at)); InOrder(st'.executed) && TableOk(st')
  {
    var st' := Apply(h, view, st, op, Logged(Op(req), at));
    assert st'.executed == st.executed + [req] && st'.table[req.clientid].last == req.clientreqid;
    assert InOrder(st'.executed) by {
      forall a | 0 <= a < |st.executed| && st.executed[a].clientid == req.clientid
        ensures st.executed[a].clientreqid < req.clientreqid
      {
        assert CoversRequest(st, a);
      }
    }
    TableNext(st, st', req);
  }

  lemma TableNext(st: Exec, st': Exec, req: Request)
    requires TableOk(st) && !Stale(st.table, req)
    requires st'.executed == st.executed + [req] && st'.table.Keys == st.table.Keys + {req.clientid}
    requires st'.table[req.clientid].last == req.clientreqid
    requires forall c :: c in st.table && c != req.clientid ==> st'.table[c] == st.table[c]
    ensures TableOk(st')
  {
    forall a | 0 <= a < |st'.executed|
      ensures CoversRequest(st', a)
    {
      if a < |st.executed| {
        assert CoversRequest(st, a);
      }
    }
    forall c | c in st'.table
      ensures exists a: nat :: IsLast(st', c, a)
    {
      if c == req.clientid {
        assert IsLast(st', c, |st.executed|);
      } else {
        var a: nat :| IsLast(st, c, a);
        assert IsLast(st', c, a);
      }
    }
  }

  lemma ApplyOk(h: Host, view: nat, st: Exec, op: nat, e: Logged)
    requires InOrder(st.executed) && TableOk(st)
    ensures var st' := Apply(h, view, st, op, e); InOrder(st'.executed) && TableOk(st')
  {
    if e.content.Op? && !Stale(st.table, e.content.req) && !Duplicate(st.table, e.content.req) {
      ExecuteOk(h, view, st, op, e.content.req, e.view);
    } else {
      SameTableOk(st, Apply(h, view, st, op, e));
    }
  }

  lemma SameTableOk(st: Exec, st': Exec)
    requires TableOk(st) && st'.executed == st.executed && st'.table == st.table
    ensures TableOk(st')
  {
    forall a | 0 <= a < |st'.executed|
      ensures CoversRequest(st', a)
    {
      assert CoversRequest(st, a);
    }
    forall c | c in st'.table
      ensures exists a: nat :: IsLast(st', c, a)
    {
      var a: nat :| IsLast(st, c, a);
      assert IsLast(st', c, a);
    }
  }

  /** Each client request is executed at most once, in increasing order. */
  lemma {:induction false} ReplayInOrder(h: Host, log: seq<Logged>, views: seq<nat>, n: nat)
    requires n <= |log| && n <= |views|
    ensures var st := Replay(h, log, views, n); InOrder(st.executed) && TableOk(st)
    decreases n
  {
    if n > 0 {
      ReplayInOrder(h, log, views, n - 1);
      ApplyOk(h, views[n - 1], Replay(h, log, views, n - 1), n, log[n - 1]);
    }
  }

  /** The operation is a request of this client with this number or a higher one. */
  predicate Reaches(e: Logged, req: Request) {
    e.content.Op? && e.content.req.clientid == req.clientid && e.content.req.clientreqid >= req.clientreqid
  }

  /** An earlier operation of the same client carries this number or a higher one. */
  ghost predicate Superseded(log: seq<Logged>, n: nat, req: Request)
    requires n <= |log|
  {
    exists j :: 0 <= j < n && Reaches(log[j], req)
  }

  /** The table has reached a number exactly when the log holds that number or a higher one. */
  lemma {:induction false} TableReaches(h: Host, log: seq<Logged>, views: seq<nat>, n: nat, req: Request)
    requires n <= |log| && n <= |views|
    ensures var table := Replay(h, log, views, n).table;
            (req.clientid in table && table[req.clientid].last >= req.clientreqid) <==> Superseded(log, n, req)
    decreases n
  {
    if n > 0 {
      TableReaches(h, log, views, n - 1, req);
      if Superseded(log, n - 1, req) {
        var j :| 0 <= j < n - 1 && Reaches(log[j], req);
        assert Superseded(log, n, req);
      }
      if log[n - 1].content.Op? && log[n - 1].content.req.clientid == req.clientid {
        TableReaches(h, log, views, n - 1, log[n - 1].content.req);
      }
    }
  }

  /** An operation runs when it is a request that no earlier operation supersedes. */
  ghost predicate Runs(log: seq<Logged>, j: nat) {
    j < |log| && log[j].content.Op? && !Superseded(log, j, log[j].content.req)
  }

  /** The requests that run, in order. */
  ghost function Running(log: seq<Logged>, n: nat): seq<Request>
    requires n <= |log|
  {
    if n == 0 then [] else Running(log, n - 1) + if Runs(log, n - 1) then [log[n - 1].content.req] else []
  }

  /** What is executed depends on the log alone, not on who led when. */
  lemma {:induction false} ExecutedExactly(h: Host, log: seq<Logged>, views: seq<nat>, n: nat)
    requires n <= |log| && n <= |views|
    ensures Replay(h, log, views, n).executed == Running(log, n)
    decreases n
  {
    if n > 0 {
      ExecutedExactly(h, log, views, n - 1);
      if log[n - 1].content.Op? {
        TableReaches(h, log, views, n - 1, log[n - 1].content.req);
      }
    }
  }

  // What is answered.

  /** The result of executing operation j + 1 in its place. */
  ghost function Result(h: Host, log: seq<Logged>, j: nat): string
    requires Runs(log, j)
  {
    h.app(Running(log, j), log[j].content.req)
  }

  /** The replica ran this client's request and led when it did; number 0 is taken for one already recorded. */
  ghost predicate Keeps(h: Host, log: seq<Logged>, views: seq<nat>, j: nat, client: nat) {
    && j < |views| && Runs(log, j) && log[j].content.req.clientid == client && log[j].content.req.clientreqid != 0
    && Leads(h, views[j])
  }

  /** The result of the client's last request that the replica ran while it led. */
  ghost function Kept(h: Host, log: seq<Logged>, views: seq<nat>, n: nat, client: nat): string
    requires n <= |log| && n <= |views|
  {
    if n == 0 then ""
    else if Keeps(h, log, views, n - 1, client) then Result(h, log, n - 1)
    else Kept(h, log, views, n - 1, client)
  }

  lemma {:induction false} TableKeeps(h: Host, log: seq<Logged>, views: seq<nat>, n: nat, client: nat)
    requires n <= |log| && n <= |views|
    ensures var table := Replay(h, log, views, n).table;
            Kept(h, log, views, n, client) == if client in table then table[client].result else ""
    decreases n
  {
    if n > 0 {
      TableKeeps(h, log, views, n - 1, client);
      ExecutedExactly(h, log, views, n - 1);
      if log[n - 1].content.Op? {
        TableReaches(h, log, views, n - 1, log[n - 1].content.req);
      }
    }
  }

  /** What a repeat of operation j + 1 is answered with. */
  ghost function Stored(h: Host, log: seq<Logged>, views: seq<nat>, j: nat): string
    requires j < |views| && Runs(log, j)
  {
    var client := log[j].content.req.clientid;
    if Keeps(h, log, views, j, client) then Result(h, log, j) else Kept(h, log, views, j, client)
  }

  /** Operation j + 1 is the last of the client's that ran before n. */
  ghost predicate LastRun(h: Host, log: seq<Logged>, views: seq<nat>, n: nat, client: nat, j: nat)
    requires n <= |log| && n <= |views|
  {
    && j < n && Runs(log, j) && log[j].content.req.clientid == client
    && client in Replay(h, log, views, n).table
    && log[j].content.req.clientreqid == Replay(h, log, views, n).table[client].last
    && Kept(h, log, views, n, client) == Stored(h, log, views, j)
  }

  lemma {:induction false} TableLast(h: Host, log: seq<Logged>, views: seq<nat>, n: nat, client: nat) returns (j: nat)
    requires n <= |log| && n <= |views| && client in Replay(h, log, views, n).table
    ensures LastRun(h, log, views, n, client, j)
    decreases n
  {
    if log[n - 1].content.Op? {
      TableReaches(h, log, views, n - 1, log[n - 1].content.req);
    }
    if Runs(log, n - 1) && log[n - 1].content.req.clientid == client {
      j := n - 1;
    } else {
      j := TableLast(h, log, views, n - 1, client);
    }
  }

  /** The answer is to a request that ran at j + 1: its result at once, and later what was stored. */
  ghost predicate AnswerTo(h: Host, log: seq<Logged>, views: seq<nat>, a: Answer, j: nat) {
    && j < a.op <= |log| && j < |views| && Runs(log, j) && Id(log[j].content.req) == a.id
    && Leads(h, log[a.op - 1].view)
    && a.result == if a.op == j + 1 then Result(h, log, j) else Stored(h, log, views, j)
  }

  /** Every answer is of that form. */
  lemma {:induction false} AnswerExact(h: Host, log: seq<Logged>, views: seq<nat>, n: nat, k: nat) returns (j: nat)
    requires n <= |log| && n <= |views| && k < |Replay(h, log, views, n).out|
    ensures AnswerTo(h, log, views, Replay(h, log, views, n).out[k], j)
    decreases n
  {
    var before := Replay(h, log, views, n - 1);
    if k < |before.out| {
      j := AnswerExact(h, log, views, n - 1, k);
    } else {
      var req := log[n - 1].content.req;
      TableReaches(h, log, views, n - 1, req);
      ExecutedExactly(h, log, views, n - 1);
      if Duplicate(before.table, req) {
        TableKeeps(h, log, views, n - 1, req.clientid);
        j := TableLast(h, log, views, n - 1, req.clientid);
      } else {
        j := n - 1;
      }
    }
  }

  /** A request runs once. */
  lemma RunsOnce(log: seq<Logged>, i: nat, j: nat)
    requires Runs(log, i) && Runs(log, j) && Id(log[i].content.req) == Id(log[j].content.req)
    ensures i == j
  {
  }

  /** The stored result is the executed one: the replica led when it ran the request, or both happen to be equal. */
  ghost predicate KeptAs(h: Host, log: seq<Logged>, views: seq<nat>, j: nat)
    requires j < |views| && Runs(log, j)
  {
    var client := log[j].content.req.clientid;
    Keeps(h, log, views, j, client) || Kept(h, log, views, j, client) == Result(h, log, j)
  }

  /**
   * Exactly when an answer is the result of the request's one execution: it was given right then, or the
   * replica kept that result.
   */
  lemma AnswerIsResult(h: Host, log: seq<Logged>, views: seq<nat>, n: nat, k: nat, j: nat)
    requires n <= |log| && n <= |views| && k < |Replay(h, log, views, n).out| && j < |views| && Runs(log, j)
    requires Replay(h, log, views, n).out[k].id == Id(log[j].content.req)
    ensures var a := Replay(h, log, views, n).out[k];
            a.result == Result(h, log, j) <==> a.op == j + 1 || KeptAs(h, log, views, j)
  {
    var i := AnswerExact(h, log, views, n, k);
    RunsOnce(log, i, j);
  }

  /** Exactly when two answers to one request agree. */
  lemma OneAnswer(h: Host, log: seq<Logged>, views: seq<nat>, n: nat, k: nat, l: nat, j: nat)
    requires n <= |log| && n <= |views| && j < |views| && Runs(log, j)
    requires k < |Replay(h, log, views, n).out| && l < |Replay(h, log, views, n).out|
    requires Replay(h, log, views, n).out[k].id == Replay(h, log, views, n).out[l].id == Id(log[j].content.req)
    ensures var out := Replay(h, log, views, n).out;
            out[k].result == out[l].result <==>
              KeptAs(h, log, views, j) || (out[k].op == j + 1 <==> out[l].op == j + 1)
  {
    var i := AnswerExact(h, log, views, n, k);
    RunsOnce(log, i, j);
    i := AnswerExact(h, log, views, n, l);
    RunsOnce(log, i, j);
  }

  /** Replica 0 leads, follows and leads again: the repeat of what it ran as a follower gets the earlier result. */
  lemma WrongAnswer(app: App, r1: Request, r2: Request)
    requires r1.clientid == r2.clientid && 1 <= r1.clientreqid < r2.clientreqid
    ensures var log := [Logged(Op(r1), 0), Logged(Op(r2), 1), Logged(Op(r2), 3)];
            Replay(Host(app, 0, 3), log, [0, 1, 3], 3).out
            == [Answer(1, Id(r1), app([], r1)), Answer(3, Id(r2), app([], r1))]
  {
    var h, log, views := Host(app, 0, 3), [Logged(Op(r1), 0), Logged(Op(r2), 1), Logged(Op(r2), 3)], [0, 1, 3];
    assert Replay(h, log, views, 1) == Apply(h, 0, Replay(h, log, views, 0), 1, log[0]);
    assert Replay(h, log, views, 2) == Apply(h, 1, Replay(h, log, views, 1), 2, log[1]);
    assert Replay(h, log, views, 3) == Apply(h, 3, Replay(h, log, views, 2), 3, log[2]);
  }

  /** A replica that never led before answers with nothing. */
  lemma EmptyAnswer(app: App, r: Request)
    requires 1 <= r.clientreqid
    ensures Replay(Host(app, 0, 3), [Logged(Op(r), 1), Logged(Op(r), 3)], [1, 3], 2).out == [Answer(2, Id(r), "")]
  {
    var h, log, views := Host(app, 0, 3), [Logged(Op(r), 1), Logged(Op(r), 3)], [1, 3];
    assert Replay(h, log, views, 1) == Apply(h, 1, Replay(h, log, views, 0), 1, log[0]);
    assert Replay(h, log, views, 2) == Apply(h, 3, Replay(h, log, views, 1), 2, log[1]);
  }
}

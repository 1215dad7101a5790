/**
 * The new leader of a NOPaxos view change as the code has it, with its log next to the counter of its last
 * operation: cutting back, recording gaps, and the assertions on the way into the view. It may stop, ask for
 * missing operations, or enter.
 */
module NopaxosNewLeader {
  import opened Numbers
  import opened Logs
  import opened NopaxosViews
  import opened NopaxosMerge

  /** `log[i]` is operation i+1; `lastOp` is the counter that goes with it. */
  datatype State = State(log: seq<EntryState>, lastOp: nat, gaps: set<nat>, committed: nat, executed: nat)

  /** How far the reports have been gone through. */
  datatype Progress = Progress(s: State, latestOp: nat, from: Option<nat>)

  datatype Outcome =
    | Stopped
    | Fetching(s: State, from: nat, end: nat)
    | Entered(s: State)

  // Recording gaps.

  /** The gaps beyond the counter. */
  function Ahead(s: State): set<nat> {
    set g | g in s.gaps && g > s.lastOp
  }

  /** One entry appended under the next number; the log asserts that it is its next one. */
  function Appended(s: State, e: EntryState): Option<State> {
    if |s.log| != s.lastOp then None
    else
      var op := s.lastOp + 1;
      Some(s.(log := s.log + [if op in s.gaps then Noop else e], lastOp := op,
              gaps := if e == Noop then s.gaps + {op} else s.gaps))
  }

  lemma AppendConsumes(s: State)
    requires s.lastOp + 1 in s.gaps && Appended(s, Noop).Some?
    ensures Ahead(Appended(s, Noop).value) < Ahead(s)
  {
    assert s.lastOp + 1 in Ahead(s);
  }

  /** The gaps that come next, in log order. */
  function Settled(s: State): Option<State>
    decreases Ahead(s)
  {
    if s.lastOp + 1 !in s.gaps then Some(s)
    else if Appended(s, Noop) == None then None
    else
      AppendConsumes(s);
      Settled(Appended(s, Noop).value)
  }

  /** An operation of the log is overwritten unless it is a no-op; it must exist and be open. */
  function Overwritten(s: State, gap: nat): Option<State> {
    if gap > s.lastOp then Some(s)
    else if gap == 0 || gap > |s.log| then None
    else if s.log[gap - 1] == Noop then Some(s)
    else if gap <= s.committed || gap <= s.executed then None
    else Some(s.(log := s.log[gap - 1 := Noop]))
  }

  function RecordGap(s: State, gap: nat): Option<State> {
    if gap in s.gaps then Some(s)
    else
      var s1 := s.(gaps := s.gaps + {gap});
      match if s1.lastOp + 1 == gap then Settled(s1) else Some(s1)
      case None => None
      case Some(s2) => Overwritten(s2, gap)
  }

  function RecordGaps(s: State, gaps: seq<nat>): Option<State> {
    if gaps == [] then Some(s)
    else
      match RecordGaps(s, gaps[..|gaps| - 1])
      case None => None
      case Some(s1) => RecordGap(s1, gaps[|gaps| - 1])
  }

  // The reports.

  /**
   * Cutting back to the commit point. The counter is set to it, and the log is asked to remove what comes after,
   * which removes that operation as well; before operation 1 the number wraps and an assertion fails.
   */
  function Rewound(s: State): Option<State> {
    if s.committed < s.executed || s.committed == 0 then None
    else Some(s.(lastOp := s.committed, gaps := {},
                 log := if s.committed > |s.log| then s.log else s.log[..s.committed - 1]))
  }

  function TakeReport(p: Progress, id: Id, x: Report): Option<Progress> {
    if x.id != id then Some(p)
    else
      match RecordGaps(p.s, x.gaps)
      case None => None
      case Some(s) =>
        if x.lastOp > p.latestOp then Some(Progress(s, x.lastOp, Some(x.replica))) else Some(p.(s := s))
  }

  function TakeReports(p: Progress, id: Id, msgs: seq<Report>): Option<Progress> {
    if msgs == [] then Some(p)
    else
      match TakeReports(p, id, msgs[..|msgs| - 1])
      case None => None
      case Some(q) => TakeReport(q, id, msgs[|msgs| - 1])
  }

  predicate GapsWithin(s: State, op: nat) {
    forall g :: g in s.gaps ==> g <= op
  }

  /** The three assertions after the merge, and what follows. */
  function Concluded(p: Progress): Outcome {
    if !GapsWithin(p.s, p.latestOp) then Stopped
    else if p.from.Some? then
      if p.latestOp > p.s.lastOp then Fetching(p.s, p.from.value, p.latestOp + 1) else Stopped
    else if p.latestOp == p.s.lastOp then Entered(p.s) else Stopped
  }

  function LatestOf(own: Id, msgs: seq<Report>): Id {
    Maxima([own] + IdsOf(msgs))
  }

  function OnReports(s: State, own: Id, msgs: seq<Report>): Outcome {
    var id := LatestOf(own, msgs);
    match if own == id then Some(s) else Rewound(s)
    case None => Stopped
    case Some(s1) =>
      match TakeReports(Progress(s1, if own == id then s.lastOp else 0, None), id, msgs)
      case None => Stopped
      case Some(p) => Concluded(p)
  }

  // The transfer.

  /** One transferred entry: the number is asserted, and gaps that follow are processed as well. */
  function Installed(s: State, op: nat, e: EntryState): Option<State> {
    if op != s.lastOp + 1 then None
    else
      match Appended(s, e)
      case None => None
      case Some(t) => Settled(t)
  }

  /** The entries of a reply from operation `op` on. */
  function InstallAll(s: State, op: nat, entries: seq<EntryState>): Option<State>
    decreases |entries|
  {
    if entries == [] then Some(s)
    else
      match Installed(s, op, entries[0])
      case None => None
      case Some(t) => InstallAll(t, op + 1, entries[1..])
  }

  /** The view is entered when the operation numbered by the transfer's end is appended. */
  predicate CallsBack(s: State, t: State, end: nat) {
    s.lastOp < end <= t.lastOp
  }

  // A leader behind in its identifier.

  /** Its log is one shorter than its counter. */
  predicate Behind(s: State) {
    |s.log| + 1 == s.lastOp == s.committed
  }

  lemma {:induction false} BehindRecords(s: State, gaps: seq<nat>)
    requires Behind(s)
    ensures RecordGaps(s, gaps).Some? ==> var t := RecordGaps(s, gaps).value; Behind(t) && t.log == s.log
    decreases |gaps|
  {
    if gaps != [] {
      BehindRecords(s, gaps[..|gaps| - 1]);
    }
  }

  lemma {:induction false} BehindTakes(p: Progress, id: Id, msgs: seq<Report>)
    requires Behind(p.s)
    ensures TakeReports(p, id, msgs).Some? ==> Behind(TakeReports(p, id, msgs).value.s)
    ensures TakeReports(p, id, msgs).Some? && TakeReports(p, id, msgs).value.from == None ==>
              p.from == None && TakeReports(p, id, msgs).value.latestOp == p.latestOp
    decreases |msgs|
  {
    if msgs != [] {
      var n := |msgs| - 1;
      BehindTakes(p, id, msgs[..n]);
      if TakeReports(p, id, msgs[..n]).Some? {
        BehindRecords(TakeReports(p, id, msgs[..n]).value.s, msgs[n].gaps);
      }
    }
  }

  /** A log and its counter before a cut: together, or already cut. */
  predicate Cuttable(s: State) {
    s.committed <= s.lastOp && (|s.log| == s.lastOp || Behind(s))
  }

  /** Whatever is reported, a leader that is not up to date stops or asks, with its log one too short. */
  lemma LaggingStopsOrAsks(s: State, own: Id, msgs: seq<Report>)
    requires Cuttable(s) && own != LatestOf(own, msgs)
    ensures var r := OnReports(s, own, msgs); r.Stopped? || (r.Fetching? && Behind(r.s))
  {
    if Rewound(s).Some? {
      BehindTakes(Progress(Rewound(s).value, 0, None), LatestOf(own, msgs), msgs);
    }
  }

  /** And an answer that brings anything stops it at its first entry. */
  lemma LaggingStopsOnAnswer(s: State, op: nat, entries: seq<EntryState>)
    requires Behind(s) && entries != []
    ensures InstallAll(s, op, entries) == None
  {
  }

  /** What can happen to a leader that waits: more view-change messages, or entries. */
  datatype Event = Reports(msgs: seq<Report>) | Entries(op: nat, entries: seq<EntryState>)

  /** What it has become: stopped, in the view, or waiting with its log. */
  datatype Life = Dead | InView | Waiting(s: State)

  /** The next event, the transfer's end being `end`. */
  function React(l: Life, own: Id, end: nat, e: Event): Life {
    if !l.Waiting? then l
    else
      match e
      case Reports(msgs) =>
        (match OnReports(l.s, own, msgs)
         case Stopped => Dead
         case Fetching(s, _, _) => Waiting(s)
         case Entered(_) => InView)
      case Entries(op, entries) =>
        match InstallAll(l.s, op, entries)
        case None => Dead
        case Some(t) => if CallsBack(l.s, t, end) then InView else Waiting(t)
  }

  function Live(s: State, own: Id, ends: seq<nat>, events: seq<Event>): Life
    requires |ends| == |events|
  {
    if events == [] then Waiting(s)
    else
      var n := |events| - 1;
      React(Live(s, own, ends[..n], events[..n]), own, ends[n], events[n])
  }

  /** The reports show a later identifier than the leader's own. */
  predicate Lagging(own: Id, e: Event) {
    e.Reports? ==> own != LatestOf(own, e.msgs)
  }

  /** A leader that lags never gets into the view, whatever messages and entries it receives from then on. */
  lemma {:induction false} LaggingNeverEnters(s: State, own: Id, ends: seq<nat>, events: seq<Event>)
    requires |s.log| == s.lastOp && s.committed <= s.lastOp && |ends| == |events| > 0
    requires events[0].Reports? && forall i :: 0 <= i < |events| ==> Lagging(own, events[i])
    ensures var l := Live(s, own, ends, events); l == Dead || (l.Waiting? && Behind(l.s))
    decreases |events|
  {
    var n := |events| - 1;
    var before := Live(s, own, ends[..n], events[..n]);
    assert Lagging(own, events[n]);
    if n > 0 {
      LaggingNeverEnters(s, own, ends[..n], events[..n]);
    }
    if before.Waiting? && events[n].Reports? {
      LaggingStopsOrAsks(before.s, own, events[n].msgs);
    }
  }

  // A leader that is up to date.

  /** Log and counter agree, and the gaps are the no-ops. */
  predicate InStep(s: State) {
    && |s.log| == s.lastOp && s.committed <= s.lastOp && s.executed <= s.lastOp
    && (forall g :: g in s.gaps ==> 1 <= g <= s.lastOp)
    && forall i :: 0 <= i < |s.log| ==> (s.log[i] == Noop <==> i + 1 in s.gaps)
  }

  /** The gap would overwrite a received operation that is committed or executed. */
  predicate Clashes(s: State, gap: nat) {
    gap !in s.gaps && gap <= s.lastOp && gap <= Max(s.committed, s.executed)
  }

  predicate SlotIs(s: State, t: State, i: nat)
    requires i < |t.log|
  {
    (t.log[i] == Noop <==> i + 1 in t.gaps)
  }

  /** From `s`, gaps were recorded without a clash. */
  ghost predicate Recorded(s: State, t: State) {
    && |t.log| == t.lastOp && t.committed == s.committed && t.executed == s.executed
    && Filled(s.lastOp, t.gaps, t.lastOp) && s.gaps <= t.gaps
    && (forall i :: 0 <= i < |t.log| ==> SlotIs(s, t, i))
    && forall g :: g in t.gaps ==> g >= 1 && !Clashes(s, g)
  }

  lemma NothingRecorded(s: State)
    requires InStep(s)
    ensures Recorded(s, s)
  {
  }

  /** All but one slot in place; the gaps that follow are appended. */
  ghost predicate Settling(s: State, t: State, gap: nat) {
    && |t.log| == t.lastOp >= s.lastOp && t.committed == s.committed && t.executed == s.executed
    && s.gaps <= t.gaps && gap in t.gaps
    && (forall op: nat :: s.lastOp < op <= t.lastOp ==> op in t.gaps)
    && forall i :: 0 <= i < |t.log| && i + 1 != gap ==> SlotIs(s, t, i)
  }

  lemma {:induction false} SettleRecords(s: State, t: State, gap: nat)
    requires Settling(s, t, gap) && (gap > s.lastOp ==> gap > t.lastOp || t.log[gap - 1] == Noop)
    ensures Settled(t).Some?
    ensures var u := Settled(t).value;
            && Settling(s, u, gap) && u.gaps == t.gaps && u.lastOp + 1 !in u.gaps
            && (gap > s.lastOp ==> gap > u.lastOp || u.log[gap - 1] == Noop)
            && (gap <= s.lastOp && gap >= 1 ==> u.log[gap - 1] == t.log[gap - 1])
    decreases Ahead(t)
  {
    if t.lastOp + 1 in t.gaps {
      var u := Appended(t, Noop).value;
      AppendConsumes(t);
      assert u.gaps == t.gaps;
      forall i | 0 <= i < |u.log| && i + 1 != gap
        ensures SlotIs(s, u, i)
      {
        if i < |t.log| {
          assert SlotIs(s, t, i);
        }
      }
      SettleRecords(s, u, gap);
    }
  }

  /** Recording one more gap fails exactly on a clash. */
  lemma RecordsOne(s: State, t: State, gap: nat)
    requires InStep(s) && Recorded(s, t) && gap >= 1
    ensures RecordGap(t, gap) == None <==> Clashes(s, gap)
    ensures !Clashes(s, gap) ==>
              var u := RecordGap(t, gap).value; Recorded(s, u) && u.gaps == t.gaps + {gap}
  {
    if gap !in t.gaps {
      var t1 := t.(gaps := t.gaps + {gap});
      forall i | 0 <= i < |t1.log| && i + 1 != gap
        ensures SlotIs(s, t1, i)
      {
        assert SlotIs(s, t, i);
      }
      SettleRecords(s, t1, gap);
      var t2 := Settled(t1).value;
      if gap <= s.lastOp {
        assert SlotIs(s, t, gap - 1);
      }
      if !Clashes(s, gap) {
        var u := Overwritten(t2, gap).value;
        forall i | 0 <= i < |u.log|
          ensures SlotIs(s, u, i)
        {
          if i + 1 != gap {
            assert SlotIs(s, t2, i);
          }
        }
      }
    }
  }

  ghost predicate SomeClash(s: State, gaps: seq<nat>) {
    exists g :: g in gaps && Clashes(s, g)
  }

  lemma {:induction false} RecordsAll(s: State, t: State, gaps: seq<nat>)
    requires InStep(s) && Recorded(s, t) && forall g :: g in gaps ==> g >= 1
    ensures RecordGaps(t, gaps) == None <==> SomeClash(s, gaps)
    ensures !SomeClash(s, gaps) ==>
              var u := RecordGaps(t, gaps).value; Recorded(s, u) && u.gaps == t.gaps + set g | g in gaps
    decreases |gaps|
  {
    if gaps != [] {
      var n := |gaps| - 1;
      assert gaps == gaps[..n] + [gaps[n]] && gaps[n] in gaps && forall g :: g in gaps[..n] ==> g in gaps;
      RecordsAll(s, t, gaps[..n]);
      if SomeClash(s, gaps[..n]) {
        var g :| g in gaps[..n] && Clashes(s, g);
        assert g in gaps;
      } else {
        RecordsOne(s, RecordGaps(t, gaps[..n]).value, gaps[n]);
      }
    }
  }

  /** A report as replicas send it: gaps from 1 up to the end of the log. */
  predicate ReportFits(x: Report) {
    forall g :: g in x.gaps ==> 1 <= g <= x.lastOp
  }

  predicate ReportsFit(msgs: seq<Report>) {
    forall i :: 0 <= i < |msgs| ==> ReportFits(msgs[i])
  }

  /** A report under the identifier lists a gap that clashes. */
  ghost predicate AnyClash(s: State, id: Id, msgs: seq<Report>) {
    exists i :: 0 <= i < |msgs| && msgs[i].id == id && SomeClash(s, msgs[i].gaps)
  }

  /** What going through the reports has gathered. */
  ghost predicate Gathered(s: State, id: Id, msgs: seq<Report>, p: Progress) {
    && Recorded(s, p.s)
    && (forall g :: g in p.s.gaps <==> g in s.gaps || SomeGap(msgs, id, g))
    && s.lastOp <= p.latestOp && (p.from == None <==> p.latestOp == s.lastOp)
    && (forall i :: 0 <= i < |msgs| && msgs[i].id == id ==> msgs[i].lastOp <= p.latestOp)
    && (p.from.Some? ==> exists i :: 0 <= i < |msgs| && msgs[i].id == id && msgs[i].lastOp == p.latestOp)
  }

  lemma GathersOne(s: State, id: Id, msgs: seq<Report>, p: Progress, x: Report)
    requires InStep(s) && Gathered(s, id, msgs, p) && ReportFits(x)
    ensures TakeReport(p, id, x) == None <==> x.id == id && SomeClash(s, x.gaps)
    ensures !(x.id == id && SomeClash(s, x.gaps)) ==> Gathered(s, id, msgs + [x], TakeReport(p, id, x).value)
  {
    var msgs' := msgs + [x];
    RecordsAll(s, p.s, x.gaps);
    if !(x.id == id && SomeClash(s, x.gaps)) {
      var q := TakeReport(p, id, x).value;
      assert msgs'[|msgs|] == x;
      MoreGaps(id, msgs, x, s.gaps, p.s.gaps, q.s.gaps);
      if p.from.Some? {
        var i :| 0 <= i < |msgs| && msgs[i].id == id && msgs[i].lastOp == p.latestOp;
        assert msgs'[i] == msgs[i];
      }
      forall i | 0 <= i < |msgs'| && msgs'[i].id == id
        ensures msgs'[i].lastOp <= q.latestOp
      {
        assert i < |msgs| ==> msgs'[i] == msgs[i];
      }
    }
  }

  lemma MoreGaps(id: Id, msgs: seq<Report>, x: Report, own: set<nat>, gaps: set<nat>, gaps': set<nat>)
    requires forall g :: g in gaps <==> g in own || SomeGap(msgs, id, g)
    requires gaps' == if x.id == id then gaps + (set g | g in x.gaps) else gaps
    ensures forall g :: g in gaps' <==> g in own || SomeGap(msgs + [x], id, g)
  {
    var msgs' := msgs + [x];
    assert msgs'[|msgs|] == x;
    forall g
      ensures g in gaps' <==> g in own || SomeGap(msgs', id, g)
    {
      if SomeGap(msgs, id, g) {
        var i :| 0 <= i < |msgs| && msgs[i].id == id && g in msgs[i].gaps;
        assert msgs'[i].id == id && g in msgs'[i].gaps;
      }
      if SomeGap(msgs', id, g) {
        var i :| 0 <= i < |msgs'| && msgs'[i].id == id && g in msgs'[i].gaps;
        assert i < |msgs| ==> msgs[i].id == id && g in msgs[i].gaps;
      }
    }
  }

  lemma {:induction false} GathersAll(s: State, id: Id, msgs: seq<Report>)
    requires InStep(s) && ReportsFit(msgs)
    ensures var r := TakeReports(Progress(s, s.lastOp, None), id, msgs);
            && (r == None <==> AnyClash(s, id, msgs))
            && (r.Some? ==> Gathered(s, id, msgs, r.value))
    decreases |msgs|
  {
    if msgs == [] {
      NothingRecorded(s);
    } else {
      var n := |msgs| - 1;
      assert msgs == msgs[..n] + [msgs[n]];
      GathersAll(s, id, msgs[..n]);
      if AnyClash(s, id, msgs[..n]) {
        var i :| 0 <= i < n && msgs[..n][i].id == id && SomeClash(s, msgs[..n][i].gaps);
        assert msgs[i].id == id && SomeClash(s, msgs[i].gaps);
      } else {
        forall i | 0 <= i < n
          ensures !(msgs[i].id == id && SomeClash(s, msgs[i].gaps))
        {
          assert msgs[..n][i] == msgs[i];
        }
        GathersOne(s, id, msgs[..n], TakeReports(Progress(s, s.lastOp, None), id, msgs[..n]).value, msgs[n]);
      }
    }
  }

  /** Somebody under the leader's identifier reports a longer log. */
  ghost predicate Further(s: State, id: Id, msgs: seq<Report>) {
    exists i :: 0 <= i < |msgs| && msgs[i].id == id && msgs[i].lastOp > s.lastOp
  }

  /** And an operation missing up to some reported end is not reported as a gap. */
  ghost predicate MissesOperation(s: State, id: Id, msgs: seq<Report>) {
    exists i, op :: 0 <= i < |msgs| && msgs[i].id == id && s.lastOp < op <= msgs[i].lastOp && !SomeGap(msgs, id, op)
  }

  /** The fetch's assertion, whatever the reports: it holds exactly when a missing operation is not a gap. */
  lemma MissesExactly(s: State, id: Id, msgs: seq<Report>, p: Progress)
    requires InStep(s) && Gathered(s, id, msgs, p)
    ensures p.s.lastOp < p.latestOp <==> MissesOperation(s, id, msgs)
  {
    if p.s.lastOp < p.latestOp {
      var i :| 0 <= i < |msgs| && msgs[i].id == id && msgs[i].lastOp == p.latestOp;
      assert !SomeGap(msgs, id, p.s.lastOp + 1);
      assert s.lastOp < p.s.lastOp + 1 <= msgs[i].lastOp;
    }
    if MissesOperation(s, id, msgs) {
      var i, op :| 0 <= i < |msgs| && msgs[i].id == id && s.lastOp < op <= msgs[i].lastOp && !SomeGap(msgs, id, op);
      assert op !in p.s.gaps;
    }
  }

  /** The assertion on gaps holds. */
  lemma GatheredWithin(s: State, id: Id, msgs: seq<Report>, p: Progress)
    requires InStep(s) && ReportsFit(msgs) && Gathered(s, id, msgs, p)
    ensures GapsWithin(p.s, p.latestOp)
  {
    forall g | g in p.s.gaps
      ensures g <= p.latestOp
    {
      if g !in s.gaps {
        var i :| 0 <= i < |msgs| && msgs[i].id == id && g in msgs[i].gaps;
        assert ReportFits(msgs[i]);
      }
    }
  }

  /** The leader has gone through the reports, is to fetch, and violates the assertion on its counter. */
  predicate FailsToFetch(r: Option<Progress>) {
    r.Some? && GapsWithin(r.value.s, r.value.latestOp) && r.value.from.Some? && r.value.latestOp <= r.value.s.lastOp
  }

  /**
   * Exactly what becomes of a leader that is up to date, unless a reported gap would overwrite something committed
   * or executed, which stops it. It enters when nobody reports a longer log, it asks when a missing operation is
   * not a gap, and otherwise it violates the assertion on fetching.
   */
  lemma UpToDateOutcome(s: State, own: Id, msgs: seq<Report>)
    requires InStep(s) && ReportsFit(msgs) && own == LatestOf(own, msgs)
    ensures var r := OnReports(s, own, msgs);
            && (r.Entered? <==> !AnyClash(s, own, msgs) && !Further(s, own, msgs))
            && (r.Fetching? <==> !AnyClash(s, own, msgs) && MissesOperation(s, own, msgs))
            && (r.Fetching? ==> Recorded(s, r.s) && r.s.lastOp + 1 < r.end && GapsWithin(r.s, r.end - 1))
            && (FailsToFetch(TakeReports(Progress(s, s.lastOp, None), own, msgs)) <==>
                  !AnyClash(s, own, msgs) && Further(s, own, msgs) && !MissesOperation(s, own, msgs))
  {
    GathersAll(s, own, msgs);
    var r := TakeReports(Progress(s, s.lastOp, None), own, msgs);
    if r.Some? {
      var p := r.value;
      GatheredWithin(s, own, msgs, p);
      MissesExactly(s, own, msgs, p);
      assert p.from.Some? <==> Further(s, own, msgs);
      assert p.s.lastOp > s.lastOp ==> s.lastOp + 1 in p.s.gaps;
    }
  }

  // The answer to such a leader.

  /** Log and counter agree and no gap comes next. */
  predicate Ready(s: State) {
    |s.log| == s.lastOp && s.lastOp + 1 !in s.gaps
  }

  lemma {:induction false} SettledReady(s: State)
    requires |s.log| == s.lastOp
    ensures Settled(s).Some?
    ensures var t := Settled(s).value;
            && Ready(t) && t.gaps == s.gaps && t.lastOp >= s.lastOp && (s.lastOp + 1 in s.gaps ==> t.lastOp > s.lastOp)
            && forall op: nat :: s.lastOp < op <= t.lastOp ==> op in s.gaps
    decreases Ahead(s)
  {
    if s.lastOp + 1 in s.gaps {
      AppendConsumes(s);
      SettledReady(Appended(s, Noop).value);
      assert Appended(s, Noop).value.gaps == s.gaps;
    }
  }

  /** A known gap lies among the operations asked for, after the first. */
  ghost predicate GapInside(s: State, end: nat) {
    exists g :: g in s.gaps && s.lastOp + 1 < g < end
  }

  /**
   * The answer with everything asked for: it stops the leader exactly when a known gap lies inside the range;
   * otherwise the log reaches the merged end and the view is still not entered.
   */
  lemma {:induction false} AnswerNotEnough(s: State, end: nat, entries: seq<EntryState>)
    requires Ready(s) && end == s.lastOp + 1 + |entries| && GapsWithin(s, end - 1)
    ensures var r := InstallAll(s, s.lastOp + 1, entries);
            && (r == None <==> GapInside(s, end))
            && (r.Some? ==> r.value.lastOp == end - 1 && !CallsBack(s, r.value, end))
    decreases |entries|
  {
    if entries != [] {
      var op := s.lastOp + 1;
      var t := Appended(s, entries[0]).value;
      SettledReady(t);
      var u := Settled(t).value;
      assert Installed(s, op, entries[0]) == Some(u);
      if op + 1 in t.gaps {
        assert op + 1 in s.gaps;
        assert entries[1..] != [] && InstallAll(u, op + 1, entries[1..]) == None;
      } else {
        assert u == t;
        AnswerNotEnough(t, end, entries[1..]);
      }
    }
  }

  /** With the whole merged log, the next view-change message lets it in. */
  lemma RepeatEnters(s: State, own: Id, msgs: seq<Report>)
    requires InStep(s) && ReportsFit(msgs) && own == LatestOf(own, msgs)
    requires forall i :: 0 <= i < |msgs| && msgs[i].id == own ==> msgs[i].lastOp <= s.lastOp
    requires forall i, g :: 0 <= i < |msgs| && msgs[i].id == own && g in msgs[i].gaps ==> g in s.gaps
    ensures OnReports(s, own, msgs).Entered?
  {
    UpToDateOutcome(s, own, msgs);
  }

  // Two leaders that stop although a quorum reports.

  /** One operation behind, and that a gap: nothing is missing once the gap is in. */
  lemma OnlyGapsMissing(s: State)
    requires InStep(s)
    ensures var own, msgs := Id(0, 0), [Report(1, Id(0, 0), s.lastOp + 1, [s.lastOp + 1])];
            && own == LatestOf(own, msgs) && FailsToFetch(TakeReports(Progress(s, s.lastOp, None), own, msgs))
            && OnReports(s, own, msgs) == Stopped
  {
    var own, x := Id(0, 0), Report(1, Id(0, 0), s.lastOp + 1, [s.lastOp + 1]);
    LatestOfTwo(own, x);
    OnlyGapReported(s, own, x);
    UpToDateOutcome(s, own, [x]);
  }

  lemma OnlyGapReported(s: State, own: Id, x: Report)
    requires x.id == own && x.lastOp == s.lastOp + 1 && x.gaps == [s.lastOp + 1]
    ensures ReportsFit([x]) && !AnyClash(s, own, [x]) && Further(s, own, [x]) && !MissesOperation(s, own, [x])
  {
    var msgs := [x];
    assert msgs[0].id == own && msgs[0].lastOp > s.lastOp && s.lastOp + 1 in msgs[0].gaps;
    assert SomeGap(msgs, own, s.lastOp + 1);
  }

  /** Behind in its view, with everything committed that the later view reports: nothing is missing at all. */
  lemma NothingMissing(s: State)
    requires |s.log| == s.lastOp == s.committed == s.executed && s.committed >= 1
    ensures var own, msgs := Id(0, 1), [Report(1, Id(0, 2), s.committed, [])];
            && own != LatestOf(own, msgs) && Rewound(s).Some?
            && FailsToFetch(TakeReports(Progress(Rewound(s).value, 0, None), LatestOf(own, msgs), msgs))
            && OnReports(s, own, msgs) == Stopped
  {
    var own, x := Id(0, 1), Report(1, Id(0, 2), s.committed, []);
    LatestOfTwo(own, x);
    var p := Progress(Rewound(s).value, 0, None);
    assert [x][..0] == [] && TakeReports(p, x.id, [x][..0]) == Some(p) && RecordGaps(p.s, x.gaps) == Some(p.s);
    var q := Progress(p.s, s.committed, Some(1));
    assert TakeReports(p, x.id, [x]) == Some(q) && Concluded(q) == Stopped;
  }

  lemma LatestOfTwo(own: Id, x: Report)
    requires Below(own, x.id)
    ensures LatestOf(own, [x]) == x.id
  {
    var ids := [own] + IdsOf([x]);
    assert |ids| == 2 && ids[..1] == [own] && ids[1] == x.id && Maxima([own]) == own;
  }

  // The code.

  /** The new leader as an object; each method says whether it got through, and what it has then become. */
  class NewLeader {
    const own: Id
    const committed: nat
    const executed: nat
    var log: seq<EntryState>
    var lastOp: nat
    var gaps: set<nat>

    constructor (own: Id, s: State)
      ensures this.own == own && Now() == s
    {
      this.own, committed, executed := own, s.committed, s.executed;
      log, lastOp, gaps := s.log, s.lastOp, s.gaps;
    }

    function Now(): State
      reads this
    {
      State(log, lastOp, gaps, committed, executed)
    }

    /** Appends the gaps that come next. */
    method ProcessGaps() returns (ok: bool)
      modifies this`log, this`lastOp
      ensures ok <==> Settled(old(Now())).Some?
      ensures ok ==> Now() == Settled(old(Now())).value
    {
      while lastOp + 1 in gaps
        invariant gaps == old(gaps) && Settled(Now()) == Settled(old(Now()))
        decreases Ahead(Now())
      {
        if |log| != lastOp {
          return false;
        }
        AppendConsumes(Now());
        assert gaps + {lastOp + 1} == gaps;
        log, lastOp := log + [Noop], lastOp + 1;
      }
      ok := true;
    }

    method InstallGap(gap: nat) returns (ok: bool)
      modifies this`log, this`lastOp, this`gaps
      ensures ok <==> RecordGap(old(Now()), gap).Some?
      ensures ok ==> Now() == RecordGap(old(Now()), gap).value
    {
      if gap in gaps {
        return true;
      }
      gaps, ok := gaps + {gap}, true;
      if lastOp + 1 == gap {
        ok := ProcessGaps();
      }
      if ok && gap <= lastOp {
        if gap == 0 || gap > |log| {
          return false;
        }
        if log[gap - 1] != Noop {
          if gap <= committed || gap <= executed {
            return false;
          }
          log := log[gap - 1 := Noop];
        }
      }
    }

    method InstallCommittedGaps(more: seq<nat>) returns (ok: bool)
      modifies this`log, this`lastOp, this`gaps
      ensures ok <==> RecordGaps(old(Now()), more).Some?
      ensures ok ==> Now() == RecordGaps(old(Now()), more).value
    {
      for i := 0 to |more|
        invariant RecordGaps(old(Now()), more[..i]) == Some(Now())
      {
        assert more[..i + 1][..i] == more[..i];
        ok := InstallGap(more[i]);
        if !ok {
          RecordFails(old(Now()), more, i + 1);
          return false;
        }
      }
      assert more[..|more|] == more;
      ok := true;
    }

    method Rewind() returns (ok: bool)
      modifies this`log, this`lastOp, this`gaps
      ensures ok <==> Rewound(old(Now())).Some?
      ensures ok ==> Now() == Rewound(old(Now())).value
    {
      if committed < executed || committed == 0 {
        return false;
      }
      lastOp := committed;
      if committed <= |log| {
        log := log[..committed - 1];
      }
      gaps := {};
      ok := true;
    }

    /** The second loop over the messages. */
    method Collect(id: Id, latest: nat, msgs: seq<Report>) returns (ok: bool, latestOp: nat, from: Option<nat>)
      modifies this`log, this`lastOp, this`gaps
      ensures ok <==> TakeReports(Progress(old(Now()), latest, None), id, msgs).Some?
      ensures ok ==> Progress(Now(), latestOp, from) == TakeReports(Progress(old(Now()), latest, None), id, msgs).value
    {
      ok, latestOp, from := true, latest, None;
      ghost var p := Progress(Now(), latest, None);
      for i := 0 to |msgs|
        invariant TakeReports(p, id, msgs[..i]) == Some(Progress(Now(), latestOp, from))
      {
        assert msgs[..i + 1][..i] == msgs[..i];
        var x := msgs[i];
        if x.id == id {
          ok := InstallCommittedGaps(x.gaps);
          if !ok {
            TakeFails(p, id, msgs, i + 1);
            return;
          }
          if x.lastOp > latestOp {
            latestOp, from := x.lastOp, Some(x.replica);
          }
        }
      }
      assert msgs[..|msgs|] == msgs;
      ok := true;
    }

    method HandleViewChanges(msgs: seq<Report>) returns (r: Outcome)
      modifies this`log, this`lastOp, this`gaps
      ensures r == OnReports(old(Now()), own, msgs)
      ensures r.Entered? || r.Fetching? ==> r.s == Now()
    {
      var id, latest := LatestId(Report(0, own, lastOp, []), msgs);
      assert IdsOf([Report(0, own, lastOp, [])] + msgs) == [own] + IdsOf(msgs);
      if own != id {
        var ok := Rewind();
        if !ok {
          return Stopped;
        }
      }
      var ok, latestOp, from := Collect(id, latest, msgs);
      if !ok || exists g :: g in gaps && g > latestOp {
        return Stopped;
      }
      if from.Some? {
        return if latestOp > lastOp then Fetching(Now(), from.value, latestOp + 1) else Stopped;
      }
      r := if latestOp == lastOp then Entered(Now()) else Stopped;
    }
  }

  lemma {:induction false} RecordFails(s: State, gaps: seq<nat>, i: nat)
    requires i <= |gaps| && RecordGaps(s, gaps[..i]) == None
    ensures RecordGaps(s, gaps) == None
    decreases |gaps| - i
  {
    if i == |gaps| {
      assert gaps[..i] == gaps;
    } else {
      assert gaps[..i + 1][..i] == gaps[..i];
      RecordFails(s, gaps, i + 1);
    }
  }

  lemma {:induction false} TakeFails(p: Progress, id: Id, msgs: seq<Report>, i: nat)
    requires i <= |msgs| && TakeReports(p, id, msgs[..i]) == None
    ensures TakeReports(p, id, msgs) == None
    decreases |msgs| - i
  {
    if i == |msgs| {
      assert msgs[..i] == msgs;
    } else {
      assert msgs[..i + 1][..i] == msgs[..i];
      TakeFails(p, id, msgs, i + 1);
    }
  }
}

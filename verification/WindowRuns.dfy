/**
 What every run of the decode window keeps, and what a published result
 therefore says about the submissions that were made.
 */
module WindowRuns {
  import opened Outcomes
  import opened Sorting
  import opened DecodeWindow

  // ---------- the invariant ----------

  /** Row `t` is ticket `t`, describes submission `t`, and its tokens were counted if it is complete. */
  ghost predicate Describes(row: Row, t: nat, s: Submission) {
    && HasContexts(s) && s.preemptions == 0
    && row.ticket == t && row.pureDecode == s.isDecode && row.tokens == s.tokens
    && row.requestIds == OrderedIds(s) && row.contextLengths == OrderedContexts(s)
    && (row.completed && row.pureDecode ==> row.completedDecodeTokens == Some(row.tokens))
  }

  /** `pending` is exactly the uncompleted records. */
  ghost predicate Ledger(w: Window, subs: seq<Submission>) {
    && w.submitted == |w.records| == |subs|
    && (forall t :: 0 <= t < |subs| ==> Describes(w.records[t], t, subs[t]))
    && (forall t :: t in w.pending <==> 0 <= t < |w.records| && !w.records[t].completed)
    && (forall t :: t in w.pending ==> w.pending[t] == t)
  }

  ghost predicate EligibleRun(c: Config, subs: seq<Submission>, lo: int, ids: seq<int>) {
    && 0 <= lo <= |subs|
    && forall i :: lo <= i < |subs| ==> Continues(c, subs[i], ids)
  }

  ghost predicate Continues(c: Config, s: Submission, ids: seq<int>) {
    Eligible(c, s) && SortedIds(s.requestIds) == ids
  }

  /** Before the first edge: the trailing run of eligible submissions, and it cannot be extended. */
  ghost predicate Warming(c: Config, w: Window, subs: seq<Submission>) {
    && w.result.None? && w.steps == w.tokens == w.syncs == 0 && w.lastMeasured.None?
    && 0 <= w.warmed <= c.warmupSteps && w.warmed <= |subs|
    && (w.ids.None? <==> w.warmed == 0)
    && (w.ids.Some? ==> EligibleRun(c, subs, |subs| - w.warmed, w.ids.value))
    && (w.ids.Some? && w.warmed < |subs| ==> !Continues(c, subs[|subs| - w.warmed - 1], w.ids.value))
    && (w.ids.None? && subs != [] ==> !Eligible(c, subs[|subs| - 1]))
    && (forall t :: 0 <= t < |w.records| ==> !w.records[t].measured)
  }

  /** After the first edge: the measured rows are the last `steps`, contexts advance by one per row. */
  ghost predicate Measuring(c: Config, w: Window, subs: seq<Submission>) {
    && w.started.Some? && w.graphBefore.Some? && w.ids.Some?
    && 0 < c.warmupSteps && 0 <= w.steps <= c.targetSteps && w.steps + c.warmupSteps <= |subs| == |w.records|
    && w.tokens == c.concurrency * w.steps
    && w.syncs == (if w.result.Some? then 2 else 1)
    && EligibleRun(c, subs, |subs| - w.steps - c.warmupSteps, w.ids.value)
    && (|subs| - w.steps - c.warmupSteps > 0 ==> !Continues(c, subs[|subs| - w.steps - c.warmupSteps - 1], w.ids.value))
    && (forall t :: 0 <= t < |w.records| ==> (w.records[t].measured <==> |subs| - w.steps <= t))
    && (forall t :: 0 <= t < |subs| - w.steps ==> w.records[t].completed)
    && (if w.steps == 0 then w.lastMeasured.None?
        else w.lastMeasured == Some(w.records[|subs| - 1].contextLengths))
    && (forall t :: |subs| - w.steps <= t < |subs| ==>
          w.records[t].contextLengths == Advance(w.records[|subs| - w.steps].contextLengths, t - (|subs| - w.steps)))
  }

  ghost predicate Published(c: Config, w: Window) {
    w.result.Some? ==>
      && w.steps == c.targetSteps && w.pending == map[] && 0 < w.steps <= |w.records|
      && w.started.Some? && w.graphBefore.Some? && w.ids.Some?
      && var r := w.result.value; var from := |w.records| - w.steps;
         && r.concurrency == c.concurrency && r.requestIds == w.ids.value
         && r.discardedSteps == c.warmupSteps
         && r.decodeSteps == r.completedSteps == c.targetSteps && r.decodeTokens == w.tokens
         && r.startedAt == w.started.value && r.elapsed == r.finishedAt - r.startedAt > 0.0
         && r.throughput == Some(r.decodeTokens as real / r.elapsed)
         && r.contextsStart == w.records[from].contextLengths
         && r.contextsEnd == Advance(w.records[|w.records| - 1].contextLengths, 1)
         && (exists after :: GraphDelta(w.graphBefore.value, after, w.steps) == Ok(r.graphDelta))
  }

  ghost predicate Inv(c: Config, w: Window, subs: seq<Submission>) {
    && Positive(c)
    && Ledger(w, subs)
    && (if w.started.None? then Warming(c, w, subs) else Measuring(c, w, subs))
    && Published(c, w)
  }

  lemma InvPositive(c: Config, w: Window, subs: seq<Submission>)
    requires Inv(c, w, subs)
    ensures Positive(c)
  {
  }

  // ---------- every call keeps it ----------

  /** What an accepted submission does to the books, whatever the phase. */
  ghost predicate Booked(w: Window, w': Window, s: Submission) {
    && HasContexts(s) && s.preemptions == 0 && w.result.None? && w'.result.None?
    && w'.started == w.started && w'.graphBefore == w.graphBefore && w'.syncs == w.syncs
    && w'.submitted == w.submitted + 1 && w'.pending == w.pending[w.submitted := |w.records|]
    && w'.records == w.records + [RowOf(s, w.submitted, w.started.Some?)]
  }

  lemma SubmitBooks(c: Config, w: Window, s: Submission)
    requires SubmitStep(c, w, s).Ok? && w.result.None?
    ensures SubmitStep(c, w, s).value.1 == Some(w.submitted)
    ensures Booked(w, SubmitStep(c, w, s).value.0, s)
  {
    hide Eligible, RowOf, SortedIds, Advance;
  }

  lemma SubmitKeepsLedger(w: Window, w': Window, subs: seq<Submission>, s: Submission)
    requires Ledger(w, subs) && Booked(w, w', s)
    ensures Ledger(w', subs + [s])
  {
    hide OrderedIds, OrderedContexts;
    forall t | 0 <= t < |subs| + 1 ensures Describes(w'.records[t], t, (subs + [s])[t]) {
      if t < |subs| {
        assert Describes(w.records[t], t, subs[t]);
      }
    }
    forall t ensures t in w'.pending <==> 0 <= t < |w'.records| && !w'.records[t].completed {
      if 0 <= t < |w.records| {
        assert w'.records[t] == w.records[t];
      }
    }
  }

  lemma EligibleRunSnoc(c: Config, subs: seq<Submission>, lo: int, ids: seq<int>, s: Submission)
    requires EligibleRun(c, subs, lo, ids) && Eligible(c, s) && SortedIds(s.requestIds) == ids
    ensures EligibleRun(c, subs + [s], lo, ids)
  {
    hide Eligible, SortedIds;
    var all := subs + [s];
    forall i | lo <= i < |all| ensures Continues(c, all[i], ids) {
      if i < |subs| {
        assert all[i] == subs[i];
      }
    }
  }

  lemma SubmitKeepsWarming(c: Config, w: Window, w': Window, subs: seq<Submission>, s: Submission)
    requires Warming(c, w, subs) && |subs| == |w.records| && w.started.None? && w.warmed < c.warmupSteps && Booked(w, w', s)
    requires w'.lastMeasured.None? && w'.steps == w'.tokens == 0
    requires var ids := Some(SortedIds(s.requestIds));
             if !Eligible(c, s) then w'.ids == None && w'.warmed == 0
             else w'.ids == ids && w'.warmed == (if ids != w.ids then 0 else w.warmed) + 1
    ensures Warming(c, w', subs + [s])
  {
    hide RowOf, SortedIds, Eligible;
    var all := subs + [s];
    forall t | 0 <= t < |w'.records| ensures !w'.records[t].measured {
      if t < |w.records| {
        assert w'.records[t] == w.records[t];
      } else {
        RowIsMeasured(s, w.submitted, false);
      }
    }
    if Eligible(c, s) {
      var ids := SortedIds(s.requestIds);
      if w.ids == Some(ids) {
        EligibleRunSnoc(c, subs, |subs| - w.warmed, ids, s);
        if w'.warmed < |all| {
          assert all[|all| - w'.warmed - 1] == subs[|subs| - w.warmed - 1];
        }
      } else {
        assert EligibleRun(c, all, |subs|, ids);
        if subs != [] {
          assert all[|all| - 2] == subs[|subs| - 1];
          LastOfWarming(c, w, subs);
        }
      }
    }
  }

  lemma RowIsMeasured(s: Submission, t: nat, measured: bool)
    requires HasContexts(s)
    ensures RowOf(s, t, measured).measured == measured
    ensures RowOf(s, t, measured).contextLengths == OrderedContexts(s)
  {
  }

  lemma LastOfWarming(c: Config, w: Window, subs: seq<Submission>)
    requires Warming(c, w, subs) && subs != []
    ensures Eligible(c, subs[|subs| - 1]) ==> w.ids == Some(SortedIds(subs[|subs| - 1].requestIds))
  {
    hide SortedIds, Eligible;
  }

  lemma ContextsAdvance(w: Window, w': Window, from: nat, contexts: seq<int>)
    requires from <= |w.records| && |w'.records| == |w.records| + 1
    requires forall t :: 0 <= t < |w.records| ==> w'.records[t] == w.records[t]
    requires w'.records[|w.records|].contextLengths == contexts
    requires forall t :: from <= t < |w.records| ==> w.records[t].contextLengths == Advance(w.records[from].contextLengths, t - from)
    requires from < |w.records| ==> contexts == Advance(w.records[|w.records| - 1].contextLengths, 1)
    ensures forall t :: from <= t <= |w.records| ==> w'.records[t].contextLengths == Advance(w'.records[from].contextLengths, t - from)
  {
    var base := w'.records[from].contextLengths;
    if from < |w.records| {
      var n := |w.records| - 1;
      assert w.records[n].contextLengths == Advance(base, n - from);
      assert Advance(Advance(base, n - from), 1) == Advance(base, n + 1 - from);
    } else {
      assert base == Advance(base, 0);
    }
  }

  lemma SubmitKeepsMeasuring(c: Config, w: Window, w': Window, subs: seq<Submission>, s: Submission)
    requires Measuring(c, w, subs) && w.steps < c.targetSteps && Booked(w, w', s)
    requires Eligible(c, s) && w.ids == Some(SortedIds(s.requestIds)) && w'.ids == w.ids
    requires w'.steps == w.steps + 1 && w'.tokens == w.tokens + c.concurrency
    requires w'.lastMeasured == Some(OrderedContexts(s))
    requires w.lastMeasured.Some? ==> OrderedContexts(s) == Advance(w.lastMeasured.value, 1)
    ensures Measuring(c, w', subs + [s])
  {
    hide RowOf, SortedIds, Continues, Advance, OrderedContexts;
    var from := |subs| - w.steps;
    RowIsMeasured(s, w.submitted, true);
    EligibleRunSnoc(c, subs, from - c.warmupSteps, w.ids.value, s);
    forall t | 0 <= t < |subs| ensures w'.records[t] == w.records[t] {}
    ContextsAdvance(w, w', from, OrderedContexts(s));
    if from - c.warmupSteps > 0 {
      assert (subs + [s])[from - c.warmupSteps - 1] == subs[from - c.warmupSteps - 1];
    }
    assert c.concurrency * (w.steps + 1) == c.concurrency * w.steps + c.concurrency;
  }

  lemma SubmitKeeps(c: Config, w: Window, subs: seq<Submission>, s: Submission)
    requires Inv(c, w, subs) && SubmitStep(c, w, s).Ok?
    ensures SubmitStep(c, w, s).value.1 == (if w.result.Some? then None else Some(|subs|))
    ensures Inv(c, SubmitStep(c, w, s).value.0, if w.result.Some? then subs else subs + [s])
  {
    hide Eligible, SortedIds, OrderedContexts, OrderedIds, Advance, Warming, Measuring, Describes;
    if w.result.None? {
      var w' := SubmitStep(c, w, s).value.0;
      SubmitBooks(c, w, s);
      SubmitKeepsLedger(w, w', subs, s);
      SubmitKeepsPhase(c, w, subs, s);
    }
  }

  lemma SubmitKeepsPhase(c: Config, w: Window, subs: seq<Submission>, s: Submission)
    requires Inv(c, w, subs) && SubmitStep(c, w, s).Ok? && w.result.None?
    ensures var w' := SubmitStep(c, w, s).value.0;
            if w'.started.None? then Warming(c, w', subs + [s]) else Measuring(c, w', subs + [s])
  {
    hide SortedIds, OrderedContexts, OrderedIds, Advance, Describes, EligibleRun;
    var w' := SubmitStep(c, w, s).value.0;
    SubmitBooks(c, w, s);
    if w.started.None? {
      SubmitKeepsWarming(c, w, w', subs, s);
    } else {
      SubmitKeepsMeasuring(c, w, w', subs, s);
    }
  }

  lemma CompleteKeepsLedger(w: Window, subs: seq<Submission>, at: nat, n: Option<int>)
    requires Ledger(w, subs) && CompleteStep(w, Some(at), n).Ok?
    ensures Ledger(CompleteStep(w, Some(at), n).value, subs)
    ensures at in w.pending && at < |w.records|
    ensures CompleteStep(w, Some(at), n).value ==
              w.(pending := w.pending - {at}, records := w.records[at := w.records[at].(completedDecodeTokens := n, completed := true)])
  {
    hide OrderedContexts, OrderedIds;
    var w' := CompleteStep(w, Some(at), n).value;
    assert w.pending[at] == at;
    forall t | 0 <= t < |w.records| ensures Describes(w'.records[t], t, subs[t]) {
      assert Describes(w.records[t], t, subs[t]);
    }
  }

  lemma CompleteKeepsPhase(c: Config, w: Window, subs: seq<Submission>, at: nat, n: Option<int>)
    requires Inv(c, w, subs) && CompleteStep(w, Some(at), n).Ok?
    ensures var w' := CompleteStep(w, Some(at), n).value;
            if w'.started.None? then Warming(c, w', subs) else Measuring(c, w', subs)
  {
    hide Describes, EligibleRun, Continues, Eligible, Advance, Published;
    CompleteKeepsLedger(w, subs, at, n);
  }

  lemma PendingInRange(c: Config, w: Window, subs: seq<Submission>)
    requires Inv(c, w, subs)
    ensures forall t :: t in w.pending ==> w.pending[t] == t < |w.records|
  {
    hide Warming, Measuring, Published, Describes;
  }

  lemma CompleteKeeps(c: Config, w: Window, subs: seq<Submission>, ticket: Option<nat>, n: Option<int>)
    requires Inv(c, w, subs) && CompleteStep(w, ticket, n).Ok?
    ensures Inv(c, CompleteStep(w, ticket, n).value, subs)
    ensures ticket.Some? ==> ticket.value in w.pending
    ensures w.result.Some? ==> CompleteStep(w, ticket, n).value == w
  {
    hide Ledger, Warming, Measuring;
    if ticket.Some? {
      CompleteKeepsLedger(w, subs, ticket.value, n);
      CompleteKeepsPhase(c, w, subs, ticket.value, n);
      assert w.result.None?;
    }
  }

  lemma {:induction false} MeasuredSuffix(rows: seq<Row>, from: nat)
    requires from <= |rows|
    requires forall t :: 0 <= t < |rows| ==> (rows[t].measured <==> from <= t)
    ensures MeasuredRows(rows) == rows[from..]
  {
    if rows != [] {
      var front := rows[..|rows| - 1];
      if from < |rows| {
        MeasuredSuffix(front, from);
        assert rows[from..] == front[from..] + [rows[|rows| - 1]];
      } else {
        MeasuredSuffix(front, from - 1);
      }
    }
  }

  lemma DrainedIsComplete(w: Window, subs: seq<Submission>)
    requires Ledger(w, subs) && w.pending == map[]
    ensures forall t :: 0 <= t < |w.records| ==> w.records[t].completed
  {
    hide Describes;
    forall t | 0 <= t < |w.records| ensures w.records[t].completed {
      assert t !in w.pending;
    }
  }

  lemma FirstEdgeKeeps(c: Config, w: Window, subs: seq<Submission>, now: real, graphs: GraphStats)
    requires Inv(c, w, subs) && w.started.None? && w.warmed == c.warmupSteps && w.pending == map[]
    ensures Inv(c, w.(syncs := w.syncs + 1, graphBefore := Some(graphs), started := Some(now)), subs)
  {
    hide Eligible, SortedIds, Describes, Advance, EligibleRun;
    DrainedIsComplete(w, subs);
  }

  lemma MeasuredIsSuffix(c: Config, w: Window, subs: seq<Submission>)
    requires Measuring(c, w, subs)
    ensures 0 <= |subs| - w.steps <= |w.records| && MeasuredRows(w.records) == w.records[|subs| - w.steps..]
  {
    hide Advance, EligibleRun, MeasuredRows, Continues;
    MeasuredSuffix(w.records, |subs| - w.steps);
  }

  /** At a drained second edge the measured rows are the last `targetSteps`, all complete. */
  lemma SecondEdgeRows(c: Config, w: Window, subs: seq<Submission>)
    requires Inv(c, w, subs) && w.started.Some? && w.steps == c.targetSteps && w.pending == map[]
    ensures 0 <= |subs| - w.steps <= |w.records| && MeasuredRows(w.records) == w.records[|subs| - w.steps..]
    ensures |MeasuredRows(w.records)| == c.targetSteps > 0 && w.tokens > 0
    ensures forall i :: 0 <= i < |MeasuredRows(w.records)| ==> MeasuredRows(w.records)[i].completed
  {
    hide Ledger, Measuring, Published, MeasuredRows;
    MeasuredIsSuffix(c, w, subs);
    DrainedIsComplete(w, subs);
    SecondEdgeTokens(c, w, subs);
  }

  lemma SecondEdgeTokens(c: Config, w: Window, subs: seq<Submission>)
    requires Measuring(c, w, subs) && Positive(c) && w.steps == c.targetSteps
    ensures w.tokens > 0 && |subs| == |w.records|
  {
    hide Advance, EligibleRun, Continues;
    assert c.concurrency * w.steps > 0;
  }

  /** At a drained second edge only the readings can be refused. */
  lemma SecondEdgeSummarizes(c: Config, w: Window, subs: seq<Submission>, now: real, graphs: GraphStats)
    requires Inv(c, w, subs) && w.started.Some? && w.result.None? && w.steps == c.targetSteps && w.pending == map[]
    ensures BoundaryStep(c, w, now, graphs).Ok? <==> BaseBoundary(c, w, now, graphs).Ok?
    ensures BaseBoundary(c, w, now, graphs).Ok? ==>
      && BaseBoundary(c, w, now, graphs).value.result.Some?
      && Summarize(c, BaseBoundary(c, w, now, graphs).value).Ok?
      && BoundaryStep(c, w, now, graphs) == Summarize(c, BaseBoundary(c, w, now, graphs).value)
  {
    hide Inv, MeasuredRows, BaseBoundary, Advance;
    SecondEdgeRows(c, w, subs);
  }

  lemma NeverIncomplete(c: Config, w: Window, subs: seq<Submission>, now: real, graphs: GraphStats)
    requires Inv(c, w, subs)
    ensures BoundaryStep(c, w, now, graphs) != Err(IncompleteWork)
  {
    hide Inv, BaseBoundary, Summarize;
    if NeedsBoundary(c, w) && w.pending == map[] && BaseBoundary(c, w, now, graphs).Ok? && w.started.Some? {
      SecondEdgeSummarizes(c, w, subs, now, graphs);
    } else if NeedsBoundary(c, w) && w.started.None? {
      FirstEdgeStep(c, w, now, graphs);
    }
  }

  lemma FirstEdgeStep(c: Config, w: Window, now: real, graphs: GraphStats)
    requires NeedsBoundary(c, w) && w.started.None?
    ensures BaseBoundary(c, w, now, graphs) == Ok(w.(syncs := w.syncs + 1, graphBefore := Some(graphs), started := Some(now)))
  {
  }

  lemma SecondEdgeStep(c: Config, w: Window, now: real, graphs: GraphStats)
    requires NeedsBoundary(c, w) && w.started.Some? && w.graphBefore.Some? && w.tokens > 0
    requires BaseBoundary(c, w, now, graphs).Ok?
    ensures var elapsed := now - w.started.value; var delta := GraphDelta(w.graphBefore.value, graphs, w.steps);
      && elapsed > 0.0 && delta.Ok?
      && BaseBoundary(c, w, now, graphs).value == w.(syncs := w.syncs + 1,
           result := Some(BaseResult(c, w, elapsed, Some(w.tokens as real / elapsed), delta.value, now)))
  {
    hide GraphDelta;
  }

  lemma SecondEdgeKeeps(c: Config, w: Window, w': Window, subs: seq<Submission>)
    requires Inv(c, w, subs) && w.started.Some? && w.result.None? && w.steps == c.targetSteps && w.pending == map[]
    requires w'.result.Some? && w' == w.(syncs := w.syncs + 1, result := w'.result)
    requires Published(c, w')
    ensures Inv(c, w', subs)
  {
    hide Eligible, SortedIds, Describes, Advance, EligibleRun, Published;
  }

  lemma SecondEdgePublishes(c: Config, w: Window, subs: seq<Submission>, now: real, graphs: GraphStats)
    requires Inv(c, w, subs) && w.started.Some? && w.result.None? && w.steps == c.targetSteps && w.pending == map[]
    requires BoundaryStep(c, w, now, graphs).Ok?
    ensures var w' := BoundaryStep(c, w, now, graphs).value;
            w'.result.Some? && w' == w.(syncs := w.syncs + 1, result := w'.result) && Published(c, w')
  {
    hide Inv, Summarize, Published, GraphDelta, BaseBoundary, MeasuredRows, BoundaryStep;
    SecondEdgeSummarizes(c, w, subs, now, graphs);
    SecondEdgeRows(c, w, subs);
    SecondEdgeState(c, w, subs);
    SecondEdgeStep(c, w, now, graphs);
    SummaryPublishes(c, w, BaseBoundary(c, w, now, graphs).value, now, graphs, |subs|);
  }

  lemma SecondEdgeState(c: Config, w: Window, subs: seq<Submission>)
    requires Inv(c, w, subs) && w.started.Some?
    ensures w.graphBefore.Some? && w.ids.Some? && 0 <= w.steps <= |subs| == |w.records|
  {
    hide Ledger, EligibleRun, Advance, Published;
  }

  lemma SummaryPublishes(c: Config, w: Window, b: Window, now: real, graphs: GraphStats, n: nat)
    requires w.graphBefore.Some? && w.ids.Some? && w.started.Some? && w.pending == map[]
    requires 0 < w.steps == c.targetSteps <= n == |w.records| && MeasuredRows(w.records) == w.records[n - w.steps..]
    requires var elapsed := now - w.started.value; var delta := GraphDelta(w.graphBefore.value, graphs, w.steps);
      && elapsed > 0.0 && delta.Ok?
      && b == w.(syncs := w.syncs + 1,
           result := Some(BaseResult(c, w, elapsed, Some(w.tokens as real / elapsed), delta.value, now)))
    requires Summarize(c, b).Ok?
    ensures var w' := Summarize(c, b).value;
            w'.result.Some? && w' == w.(syncs := w.syncs + 1, result := w'.result) && Published(c, w')
  {
    hide Advance, GraphDelta, MeasuredRows;
  }

  lemma BoundaryKeeps(c: Config, w: Window, subs: seq<Submission>, now: real, graphs: GraphStats)
    requires Inv(c, w, subs)
    ensures BoundaryStep(c, w, now, graphs) != Err(IncompleteWork)
    ensures BoundaryStep(c, w, now, graphs).Ok? ==>
              Inv(c, BoundaryStep(c, w, now, graphs).value, subs) && !NeedsBoundary(c, BoundaryStep(c, w, now, graphs).value)
  {
    NeverIncomplete(c, w, subs, now, graphs);
    hide Inv, BaseBoundary, Summarize, Published;
    var r := BoundaryStep(c, w, now, graphs);
    if NeedsBoundary(c, w) && r.Ok? {
      if w.started.Some? {
        SecondEdgePublishes(c, w, subs, now, graphs);
        SecondEdgeKeeps(c, w, r.value, subs);
      } else {
        FirstEdgeStep(c, w, now, graphs);
        FirstEdgeKeeps(c, w, subs, now, graphs);
        NoEdgeAtStart(c, w, subs);
      }
    }
  }

  lemma BoundaryPending(c: Config, w: Window, now: real, graphs: GraphStats)
    ensures BoundaryStep(c, w, now, graphs).Ok? ==> BoundaryStep(c, w, now, graphs).value.pending == w.pending
  {
    hide BaseBoundary, MeasuredRows, Advance;
  }

  lemma NoEdgeAtStart(c: Config, w: Window, subs: seq<Submission>)
    requires Inv(c, w, subs) && w.started.None?
    ensures w.steps == 0 < c.targetSteps && w.result.None?
  {
    hide Ledger, EligibleRun;
  }

  /** The edges are where and when the window says they were. */
  ghost predicate Edged(t: Trace) {
    && |t.edges| == t.w.syncs
    && (t.w.started.Some? ==>
          && |t.edges| >= 1 && t.edges[0].at == |t.subs| - t.w.steps && t.edges[0].now == t.w.started.value
          && t.w.graphBefore == Some(t.edges[0].graphs))
    && (t.w.result.Some? ==>
          && |t.edges| == 2 && t.edges[1].at == |t.subs| && t.edges[1].now == t.w.result.value.finishedAt
          && GraphDelta(t.edges[0].graphs, t.edges[1].graphs, t.w.steps) == Ok(t.w.result.value.graphDelta))
  }

  lemma SubmitKeepsEdges(c: Config, t: Trace, s: Submission)
    requires Inv(c, t.w, t.subs) && Edged(t) && Step(c, t, Submit(s)).Ok?
    ensures Edged(Step(c, t, Submit(s)).value)
  {
    hide Inv, Eligible, SortedIds, OrderedContexts, OrderedIds, Advance, GraphDelta;
    if t.w.result.None? {
      SubmitBooks(c, t.w, s);
    }
  }

  lemma BoundaryKeepsEdges(c: Config, t: Trace, now: real, graphs: GraphStats)
    requires Inv(c, t.w, t.subs) && Edged(t) && Step(c, t, Boundary(now, graphs)).Ok?
    ensures Edged(Step(c, t, Boundary(now, graphs)).value)
  {
    hide Ledger, Advance, EligibleRun, GraphDelta, MeasuredRows, StageThroughput;
  }

  lemma StepKeepsEdges(c: Config, t: Trace, e: Event)
    requires Inv(c, t.w, t.subs) && Edged(t) && Step(c, t, e).Ok?
    ensures Edged(Step(c, t, e).value)
  {
    hide Inv, SubmitStep, BoundaryStep, GraphDelta;
    match e
    case Submit(s) => SubmitKeepsEdges(c, t, s);
    case Complete(ticket, n) =>
    case Boundary(now, graphs) => BoundaryKeepsEdges(c, t, now, graphs);
  }

  lemma StepKeeps(c: Config, t: Trace, e: Event)
    requires Inv(c, t.w, t.subs)
    ensures Step(c, t, e).Ok? ==> Inv(c, Step(c, t, e).value.w, Step(c, t, e).value.subs)
    ensures Step(c, t, e) != Err(IncompleteWork)
    ensures t.w.result.Some? && Step(c, t, e).Ok? ==> Step(c, t, e).value == t
  {
    hide Inv;
    match e
    case Submit(s) =>
      if SubmitStep(c, t.w, s).Ok? {
        SubmitKeeps(c, t.w, t.subs, s);
      }
    case Complete(ticket, n) =>
      if CompleteStep(t.w, ticket, n).Ok? {
        CompleteKeeps(c, t.w, t.subs, ticket, n);
      }
    case Boundary(now, graphs) =>
      BoundaryKeeps(c, t.w, t.subs, now, graphs);
  }

  /** Every exception-free run keeps the invariant, and no run ends in the "incomplete work" error. */
  lemma {:induction false} RunKeeps(c: Config, events: seq<Event>)
    requires Positive(c)
    ensures Run(c, events).Ok? ==> Inv(c, Run(c, events).value.w, Run(c, events).value.subs) && Edged(Run(c, events).value)
    ensures Run(c, events) != Err(IncompleteWork)
  {
    hide Step;
    if events != [] {
      RunKeeps(c, events[..|events| - 1]);
      var before := Run(c, events[..|events| - 1]);
      if before.Ok? {
        var last := events[|events| - 1];
        StepKeeps(c, before.value, last);
        if Step(c, before.value, last).Ok? {
          StepKeepsEdges(c, before.value, last);
        }
      }
    }
  }

  /** These calls, without an exception, led to this trace. */
  ghost predicate Records(c: Config, events: seq<Event>, t: Trace) {
    Run(c, events) == Ok(t)
  }

  lemma RecordStep(c: Config, events: seq<Event>, t: Trace, e: Event)
    requires Records(c, events, t)
    ensures Run(c, events + [e]) == Step(c, t, e)
    ensures Step(c, t, e).Ok? ==> Records(c, events + [e], Step(c, t, e).value)
  {
    hide Step;
    assert (events + [e])[..|events|] == events;
  }

  // ---------- what a result means ----------

  lemma {:induction false} SetOfDistinct(s: seq<int>)
    ensures |SetOf(s)| <= |s|
    ensures |SetOf(s)| == |s| ==> Distinct(s)
  {
    if s != [] {
      var front, last := s[..|s| - 1], s[|s| - 1];
      SetOfDistinct(front);
      assert s == front + [last];
      assert SetOf(s) == SetOf(front) + {last};
    }
  }

  lemma {:induction false} InsertFirsts(s: seq<(int, int)>, x: (int, int))
    ensures multiset(Map(First, Insert(PairLe, s, x))) == multiset(Map(First, s)) + multiset{x.0}
  {
    if s == [] || PairLe(s[|s| - 1], x) {
      MapSnoc(First, s, x);
    } else {
      var front, last := s[..|s| - 1], s[|s| - 1];
      InsertFirsts(front, x);
      MapSnoc(First, Insert(PairLe, front, x), last);
      MapSnoc(First, front, last);
      assert s == front + [last];
    }
  }

  lemma {:induction false} SortFirsts(s: seq<(int, int)>)
    ensures multiset(Map(First, Sort(PairLe, s))) == multiset(Map(First, s))
  {
    hide Insert, Map;
    if s != [] {
      var front, last := s[..|s| - 1], s[|s| - 1];
      SortFirsts(front);
      InsertFirsts(Sort(PairLe, front), last);
      MapSnoc(First, front, last);
      assert s == front + [last];
    }
  }

  /** Sorting (id, context) pairs puts the ids in the order in which sorting the ids alone would. */
  lemma OrderedIdsAreSorted(s: Submission)
    requires HasContexts(s)
    ensures OrderedIds(s) == SortedIds(s.requestIds)
  {
    var zipped := Zip(s.requestIds, s.contextLengths);
    SortFirsts(zipped);
    assert Map(First, zipped) == s.requestIds;
    SortSorted(PairLe, zipped);
    var sorted := Sort(PairLe, zipped);
    assert Sorted(IntLe, OrderedIds(s)) by {
      forall i, j | 0 <= i < j < |sorted| ensures IntLe(OrderedIds(s)[i], OrderedIds(s)[j]) {
        assert PairLe(sorted[i], sorted[j]);
      }
    }
    SortSorted(IntLe, s.requestIds);
    SortedUnique(IntLe, OrderedIds(s), SortedIds(s.requestIds));
  }

  /** Every request keeps its own context length through the reordering. */
  lemma ContextOfRequest(s: Submission, a: nat) returns (k: nat)
    requires HasContexts(s) && a < |s.requestIds|
    ensures k < |OrderedIds(s)| == |OrderedContexts(s)|
    ensures OrderedIds(s)[k] == s.requestIds[a] && OrderedContexts(s)[k] == s.contextLengths[a]
  {
    var zipped := Zip(s.requestIds, s.contextLengths);
    MultisetMember(Sort(PairLe, zipped), zipped, zipped[a]);
    k :| 0 <= k < |Pairs(s)| && Pairs(s)[k] == zipped[a];
  }

  /** The requests of a submission with their contexts, in ascending order of ids. */
  ghost predicate InIdOrder(s: Submission, ids: seq<int>, contexts: seq<int>) {
    && |ids| == |contexts| == |s.requestIds| == |s.contextLengths|
    && (forall i, j :: 0 <= i < j < |ids| ==> ids[i] < ids[j] || (ids[i] == ids[j] && contexts[i] <= contexts[j]))
    && multiset(Zip(ids, contexts)) == multiset(Zip(s.requestIds, s.contextLengths))
  }

  lemma OrderedIsInOrder(s: Submission)
    requires HasContexts(s)
    ensures InIdOrder(s, OrderedIds(s), OrderedContexts(s))
  {
    var zipped := Zip(s.requestIds, s.contextLengths);
    SortSorted(PairLe, zipped);
    assert Zip(OrderedIds(s), OrderedContexts(s)) == Pairs(s);
    forall i, j | 0 <= i < j < |Pairs(s)| ensures PairLe(Pairs(s)[i], Pairs(s)[j]) {}
  }

  lemma SortedDistinct(ids: seq<int>)
    requires Distinct(ids)
    ensures Distinct(SortedIds(ids))
  {
    hide SortedIds;
    var sorted := SortedIds(ids);
    SortedIdsPermute(ids);
    forall i, j | 0 <= i < j < |sorted| ensures sorted[i] != sorted[j] {
      OnceEach(ids, sorted[i]);
      CountedOnce(sorted, i, j);
    }
  }

  lemma SortedIdsPermute(ids: seq<int>)
    ensures multiset(SortedIds(ids)) == multiset(ids)
  {
  }

  /** In a measured stretch, step `t` sees every request exactly `t - from` tokens further on. */
  lemma ContextsFollowRequests(c: Config, s: Submission, s': Submission, n: int, a: nat, b: nat)
    requires HasContexts(s) && HasContexts(s') && Eligible(c, s) && SortedIds(s'.requestIds) == SortedIds(s.requestIds)
    requires OrderedContexts(s') == Advance(OrderedContexts(s), n)
    requires a < |s.requestIds| && b < |s'.requestIds| && s.requestIds[a] == s'.requestIds[b]
    ensures s'.contextLengths[b] == s.contextLengths[a] + n
  {
    hide SortedIds, OrderedContexts, OrderedIds;
    OrderedIdsAreSorted(s);
    OrderedIdsAreSorted(s');
    SetOfDistinct(s.requestIds);
    SortedDistinct(s.requestIds);
    var k := ContextOfRequest(s, a);
    var k' := ContextOfRequest(s', b);
    assert k == k';
  }

  /** The stretch of accepted submissions that a result vouches for. */
  ghost predicate FullResidency(c: Config, subs: seq<Submission>, lo: int) {
    && 0 <= lo < |subs|
    && forall i :: lo <= i < |subs| ==>
         && subs[i].isDecode && subs[i].admissionComplete && subs[i].tokens == c.concurrency && subs[i].preemptions == 0
         && HasContexts(subs[i]) && |subs[i].requestIds| == c.concurrency && Distinct(subs[i].requestIds)
         && multiset(subs[i].requestIds) == multiset(subs[lo].requestIds)
  }

  lemma EligibleRunIsResident(c: Config, subs: seq<Submission>, lo: int, ids: seq<int>)
    requires EligibleRun(c, subs, lo, ids) && lo < |subs| && forall i :: lo <= i < |subs| ==> HasContexts(subs[i]) && subs[i].preemptions == 0
    ensures FullResidency(c, subs, lo)
  {
    hide SortedIds;
    assert Continues(c, subs[lo], ids);
    SortedIdsPermute(subs[lo].requestIds);
    forall i | lo <= i < |subs|
      ensures Eligible(c, subs[i]) && Distinct(subs[i].requestIds) && multiset(subs[i].requestIds) == multiset(subs[lo].requestIds)
    {
      assert Continues(c, subs[i], ids);
      SetOfDistinct(subs[i].requestIds);
      SortedIdsPermute(subs[i].requestIds);
    }
  }

  /** Every request in both submissions has `n` more tokens of context in the second. */
  ghost predicate TokensApart(s: Submission, s': Submission, n: int) {
    && HasContexts(s) && HasContexts(s')
    && forall a, b :: 0 <= a < |s.requestIds| && 0 <= b < |s'.requestIds| && s.requestIds[a] == s'.requestIds[b]
         ==> s'.contextLengths[b] == s.contextLengths[a] + n
  }

  /**
   What a published result vouches for: the last `warmupSteps + targetSteps` accepted submissions
   were pure decode over one fixed set of `concurrency` distinct requests, exactly the last
   `targetSteps` of them were measured, everything ever submitted completed, and each request's
   context grew by one token per measured step.
   */
  ghost predicate Vouches(c: Config, w: Window, subs: seq<Submission>) {
    var n := |subs|; var from := n - c.targetSteps;
    && Positive(c) && from >= c.warmupSteps && |w.records| == n && w.pending == map[]
    && FullResidency(c, subs, from - c.warmupSteps)
    && (forall t :: 0 <= t < n ==> w.records[t].ticket == t && w.records[t].completed && (w.records[t].measured <==> from <= t))
    && (forall t :: from <= t < n ==> w.records[t].completedDecodeTokens == Some(c.concurrency))
    && (forall t :: from <= t < n ==> TokensApart(subs[from], subs[t], t - from))
  }

  lemma MeasuredTokensCounted(c: Config, w: Window, subs: seq<Submission>, t: nat)
    requires Inv(c, w, subs) && w.result.Some? && |subs| - c.targetSteps <= t < |subs|
    ensures w.records[t].completedDecodeTokens == Some(c.concurrency)
  {
    hide SortedIds, OrderedContexts, OrderedIds, Advance;
    DrainedIsComplete(w, subs);
    assert Describes(w.records[t], t, subs[t]) && Continues(c, subs[t], w.ids.value);
  }

  /** The rows of a published window: all complete, exactly the last `targetSteps` measured. */
  lemma ResultRows(c: Config, w: Window, subs: seq<Submission>)
    requires Inv(c, w, subs) && w.result.Some?
    ensures |w.records| == |subs| >= c.targetSteps + c.warmupSteps && w.pending == map[]
    ensures forall t :: 0 <= t < |subs| ==>
      w.records[t].ticket == t && w.records[t].completed && (w.records[t].measured <==> |subs| - c.targetSteps <= t)
  {
    hide EligibleRun, Advance;
    DrainedIsComplete(w, subs);
    assert forall t :: 0 <= t < |subs| ==> Describes(w.records[t], t, subs[t]);
  }

  lemma FollowAll(c: Config, s: Submission, s': Submission, n: int)
    requires HasContexts(s) && HasContexts(s') && Eligible(c, s) && SortedIds(s'.requestIds) == SortedIds(s.requestIds)
    requires OrderedContexts(s') == Advance(OrderedContexts(s), n)
    ensures TokensApart(s, s', n)
  {
    forall a, b | 0 <= a < |s.requestIds| && 0 <= b < |s'.requestIds| && s.requestIds[a] == s'.requestIds[b]
      ensures s'.contextLengths[b] == s.contextLengths[a] + n
    {
      ContextsFollowRequests(c, s, s', n, a, b);
    }
  }

  lemma ResultIsResident(c: Config, w: Window, subs: seq<Submission>)
    requires Inv(c, w, subs) && w.result.Some?
    ensures FullResidency(c, subs, |subs| - c.targetSteps - c.warmupSteps)
  {
    hide SortedIds, Eligible, OrderedContexts, OrderedIds, Advance, EligibleRun, FullResidency;
    assert forall t :: 0 <= t < |subs| ==> Describes(w.records[t], t, subs[t]);
    EligibleRunIsResident(c, subs, |subs| - c.targetSteps - c.warmupSteps, w.ids.value);
  }

  lemma MeasuredContexts(c: Config, w: Window, subs: seq<Submission>, t: nat)
    requires Inv(c, w, subs) && w.result.Some? && |subs| - c.targetSteps <= t < |subs|
    ensures TokensApart(subs[|subs| - c.targetSteps], subs[t], t - (|subs| - c.targetSteps))
  {
    hide SortedIds, Eligible, OrderedContexts, OrderedIds, Advance;
    var from := |subs| - c.targetSteps;
    var first, s := subs[from], subs[t];
    assert Describes(w.records[from], from, first) && Describes(w.records[t], t, s);
    assert Continues(c, first, w.ids.value) && Continues(c, s, w.ids.value);
    FollowAll(c, first, s, t - from);
  }

  lemma ResultVouches(c: Config, w: Window, subs: seq<Submission>)
    requires Inv(c, w, subs) && w.result.Some?
    ensures Vouches(c, w, subs)
  {
    hide Ledger, Measuring, Published, FullResidency, TokensApart;
    var from := |subs| - c.targetSteps;
    ResultIsResident(c, w, subs);
    ResultRows(c, w, subs);
    forall t | from <= t < |subs|
      ensures w.records[t].completedDecodeTokens == Some(c.concurrency) && TokensApart(subs[from], subs[t], t - from)
    {
      MeasuredTokensCounted(c, w, subs, t);
      MeasuredContexts(c, w, subs, t);
    }
  }

  /** The central promise, for every exception-free run. */
  lemma ResultDescribesRun(c: Config, events: seq<Event>)
    requires Positive(c) && Run(c, events).Ok? && Run(c, events).value.w.result.Some?
    ensures Vouches(c, Run(c, events).value.w, Run(c, events).value.subs)
  {
    RunKeeps(c, events);
    ResultVouches(c, Run(c, events).value.w, Run(c, events).value.subs);
  }

  /** Every counter set replayed exactly once per step since the first reading and did nothing else. */
  ghost predicate OnlyReplays(before: GraphStats, after: GraphStats, steps: int) {
    match (before, after)
    case (Legacy(a), Legacy(b)) => b == Counters(a.captures, a.replays + steps, a.eagerDecodes)
    case (Ranks(a), Ranks(b)) =>
      a != [] && |a| == |b| && forall i :: 0 <= i < |a| ==> b[i] == Counters(a[i].captures, a[i].replays + steps, a[i].eagerDecodes)
    case _ => false
  }

  lemma GraphDeltaAccepts(before: GraphStats, after: GraphStats, steps: int)
    ensures GraphDelta(before, after, steps).Ok? <==> OnlyReplays(before, after, steps)
  {
    if before.Ranks? && after.Ranks? && |before.ranks| == |after.ranks| {
      var a, b := before.ranks, after.ranks;
      var deltas := CounterDeltas(a, b);
      if OnlyReplays(before, after, steps) {
        forall i | 0 <= i < |deltas| ensures Replayed(deltas[i], steps) {
          assert b[i] == Counters(a[i].captures, a[i].replays + steps, a[i].eagerDecodes);
        }
      }
      if GraphDelta(before, after, steps).Ok? {
        forall i | 0 <= i < |a| ensures b[i] == Counters(a[i].captures, a[i].replays + steps, a[i].eagerDecodes) {
          assert Replayed(deltas[i], steps);
        }
      }
    }
  }

  /** A difference of readings in the form of the first: no captures, `steps` replays, no eager decodes. */
  ghost predicate ReplaysOnly(delta: GraphStats, before: GraphStats, steps: int) {
    match before
    case Legacy(_) => delta == Legacy(Counters(0, steps, 0))
    case Ranks(a) =>
      delta.Ranks? && |delta.ranks| == |a| && forall i :: 0 <= i < |delta.ranks| ==> delta.ranks[i] == Counters(0, steps, 0)
  }

  lemma GraphDeltaReports(before: GraphStats, after: GraphStats, steps: int)
    ensures GraphDelta(before, after, steps).Ok? ==> ReplaysOnly(GraphDelta(before, after, steps).value, before, steps)
  {
  }

  /**
   The published numbers.  The run closed exactly two edges, one right before the first measured
   submission and one after the last submission; the elapsed time and the graph replays are those
   between their readings.  Ids and start contexts are those of the first measured submission, in
   the order of the ids; tokens, rate and end contexts follow.
   */
  ghost predicate Accounts(c: Config, t: Trace) {
    && t.w.result.Some? && 0 <= |t.subs| - c.targetSteps < |t.subs|
    && var Trace(w, subs, edges) := t; var r := w.result.value; var first := subs[|subs| - c.targetSteps];
       && w.syncs == |edges| == 2 && edges[0].at == |subs| - c.targetSteps && edges[1].at == |subs|
       && r.startedAt == edges[0].now && r.finishedAt == edges[1].now && r.elapsed == r.finishedAt - r.startedAt > 0.0
       && OnlyReplays(edges[0].graphs, edges[1].graphs, c.targetSteps)
       && ReplaysOnly(r.graphDelta, edges[0].graphs, c.targetSteps)
       && r.concurrency == c.concurrency && r.discardedSteps == c.warmupSteps
       && r.decodeSteps == r.completedSteps == c.targetSteps
       && r.decodeTokens == c.concurrency * c.targetSteps && r.throughput == Some(r.decodeTokens as real / r.elapsed)
       && HasContexts(first) && r.requestIds == OrderedIds(first) && r.contextsStart == OrderedContexts(first)
       && InIdOrder(first, r.requestIds, r.contextsStart)
       && r.contextsEnd == Advance(r.contextsStart, c.targetSteps) && |r.contextsEnd| == |r.contextsStart|
       && forall i :: 0 <= i < |r.contextsEnd| ==> r.contextsEnd[i] == r.contextsStart[i] + c.targetSteps
  }

  lemma EdgesAccount(c: Config, t: Trace)
    requires Inv(c, t.w, t.subs) && Edged(t) && t.w.result.Some?
    ensures var Trace(w, subs, edges) := t; var r := w.result.value;
      && |edges| == w.syncs == 2 && edges[0].at == |subs| - c.targetSteps && edges[1].at == |subs|
      && r.startedAt == edges[0].now && r.finishedAt == edges[1].now && r.elapsed == r.finishedAt - r.startedAt > 0.0
      && OnlyReplays(edges[0].graphs, edges[1].graphs, c.targetSteps)
      && ReplaysOnly(r.graphDelta, edges[0].graphs, c.targetSteps)
  {
    hide Ledger, EligibleRun, Advance, GraphDelta, OnlyReplays, ReplaysOnly;
    GraphDeltaAccepts(t.edges[0].graphs, t.edges[1].graphs, c.targetSteps);
    GraphDeltaReports(t.edges[0].graphs, t.edges[1].graphs, c.targetSteps);
  }

  lemma FirstMeasured(c: Config, w: Window, subs: seq<Submission>)
    requires Inv(c, w, subs) && w.result.Some?
    ensures 0 <= |subs| - c.targetSteps < |subs| && HasContexts(subs[|subs| - c.targetSteps])
    ensures var first := subs[|subs| - c.targetSteps]; var r := w.result.value;
      r.requestIds == OrderedIds(first) && r.contextsStart == OrderedContexts(first)
  {
    hide SortedIds, OrderedIds, OrderedContexts, Advance, Eligible;
    var from := |subs| - c.targetSteps;
    assert Describes(w.records[from], from, subs[from]);
    assert Continues(c, subs[from], w.ids.value);
    OrderedIdsAreSorted(subs[from]);
  }

  lemma AdvanceAt(contexts: seq<int>, n: int)
    ensures forall i :: 0 <= i < |contexts| ==> Advance(contexts, n)[i] == contexts[i] + n
  {
  }

  lemma AdvanceTwice(contexts: seq<int>, n: int)
    ensures Advance(Advance(contexts, n), 1) == Advance(contexts, n + 1)
  {
  }

  lemma ContextsEnd(c: Config, w: Window, subs: seq<Submission>)
    requires Inv(c, w, subs) && w.result.Some?
    ensures w.result.value.contextsEnd == Advance(w.result.value.contextsStart, c.targetSteps)
    ensures w.result.value.decodeTokens == c.concurrency * c.targetSteps
  {
    hide Ledger, Advance, EligibleRun;
    var from, last := |w.records| - w.steps, |w.records| - 1;
    assert w.records[last].contextLengths == Advance(w.records[from].contextLengths, w.steps - 1);
    AdvanceTwice(w.records[from].contextLengths, w.steps - 1);
  }

  lemma ResultAccounts(c: Config, events: seq<Event>)
    requires Positive(c) && Run(c, events).Ok? && Run(c, events).value.w.result.Some?
    ensures Accounts(c, Run(c, events).value)
  {
    RunKeeps(c, events);
    TraceAccounts(c, Run(c, events).value);
  }

  lemma TraceAccounts(c: Config, t: Trace)
    requires Inv(c, t.w, t.subs) && Edged(t) && t.w.result.Some?
    ensures Accounts(c, t)
  {
    hide Ledger, Measuring, OrderedIds, OrderedContexts, Advance, OnlyReplays, ReplaysOnly, Edged, HasContexts, InIdOrder;
    EdgesAccount(c, t);
    FirstMeasured(c, t.w, t.subs);
    OrderedIsInOrder(t.subs[|t.subs| - c.targetSteps]);
    ContextsEnd(c, t.w, t.subs);
    AdvanceAt(t.w.result.value.contextsStart, c.targetSteps);
  }

  /** Tickets are positions, pending is the set of uncompleted records, and each edge synchronizes once. */
  lemma PendingIsUncompleted(c: Config, events: seq<Event>)
    requires Positive(c) && Run(c, events).Ok?
    ensures var Trace(w, subs, _) := Run(c, events).value;
      && |w.records| == |subs| == w.submitted
      && (forall t :: 0 <= t < |subs| ==>
            Describes(w.records[t], t, subs[t]) && InIdOrder(subs[t], w.records[t].requestIds, w.records[t].contextLengths))
      && (forall t :: t in w.pending <==> 0 <= t < |w.records| && !w.records[t].completed)
      && w.syncs == (if w.result.Some? then 2 else if w.started.Some? then 1 else 0)
  {
    hide InIdOrder, OrderedIds, OrderedContexts;
    RunKeeps(c, events);
    var Trace(w, subs, _) := Run(c, events).value;
    forall t | 0 <= t < |subs|
      ensures Describes(w.records[t], t, subs[t]) && InIdOrder(subs[t], w.records[t].requestIds, w.records[t].contextLengths)
    {
      assert Describes(w.records[t], t, subs[t]);
      OrderedIsInOrder(subs[t]);
    }
  }

  /** Nothing changes after publication, whatever calls follow. */
  lemma {:induction false} ResultIsFrozen(c: Config, events: seq<Event>, more: seq<Event>)
    requires Positive(c) && Run(c, events).Ok? && Run(c, events).value.w.result.Some?
    requires Run(c, events + more).Ok?
    ensures Run(c, events + more) == Run(c, events)
  {
    hide Step, Inv;
    if more == [] {
      assert events + more == events;
    } else {
      var front := more[..|more| - 1];
      assert (events + more)[..|events + more| - 1] == events + front;
      ResultIsFrozen(c, events, front);
      RunKeeps(c, events);
      StepKeeps(c, Run(c, events).value, more[|more| - 1]);
    }
  }

  /** Completions of different tickets commute: their order leaves no trace in the window. */
  lemma CompletionsCommute(c: Config, w: Window, subs: seq<Submission>, a: nat, m: Option<int>, b: nat, n: Option<int>)
    requires Inv(c, w, subs) && a != b
    requires CompleteStep(w, Some(a), m).Ok? && CompleteStep(CompleteStep(w, Some(a), m).value, Some(b), n).Ok?
    ensures CompleteStep(w, Some(b), n).Ok?
    ensures CompleteStep(CompleteStep(w, Some(b), n).value, Some(a), m)
         == CompleteStep(CompleteStep(w, Some(a), m).value, Some(b), n)
  {
    hide Warming, Measuring, Published, Describes;
    var x := CompleteStep(w, Some(a), m).value;
    assert w.pending[a] == a && b in w.pending && w.pending[b] == b;
    var y := CompleteStep(w, Some(b), n).value;
    assert x.records[b] == w.records[b] && y.records[a] == w.records[a];
    assert x.pending - {b} == y.pending - {a};
    assert x.records[b := y.records[b]] == y.records[a := x.records[a]];
  }

  // ---------- the base class without the edge guard ----------

  function ObserveAll(c: Config, w: Window, subs: seq<Submission>): Result<Window, WindowError> {
    if subs == [] then Ok(w)
    else
      match ObserveAll(c, w, subs[..|subs| - 1])
      case Err(e) => Err(e)
      case Ok(v) => Observe(c, v, subs[|subs| - 1])
  }

  /** The last n submissions are one eligible batch, n times, and the submission before them is not. */
  ghost predicate EligibleTail(c: Config, subs: seq<Submission>, n: nat) {
    && n <= |subs|
    && (n == 0 && subs != [] ==> !Eligible(c, subs[|subs| - 1]))
    && (n > 0 ==>
          var ids := SortedIds(subs[|subs| - 1].requestIds);
          && EligibleRun(c, subs, |subs| - n, ids)
          && (n < |subs| ==> !Continues(c, subs[|subs| - n - 1], ids)))
  }

  lemma TailIsLongest(c: Config, subs: seq<Submission>, n: nat, m: nat)
    requires EligibleTail(c, subs, n) && n < m <= |subs|
    ensures !EligibleRun(c, subs, |subs| - m, SortedIds(subs[|subs| - 1].requestIds))
  {
    hide SortedIds, Eligible;
    assert !Continues(c, subs[|subs| - n - 1], SortedIds(subs[|subs| - 1].requestIds));
  }

  lemma TailUnique(c: Config, subs: seq<Submission>, n: nat, m: nat)
    requires EligibleTail(c, subs, n) && EligibleTail(c, subs, m)
    ensures n == m
  {
    hide SortedIds, Eligible, EligibleRun;
    if n < m {
      TailIsLongest(c, subs, n, m);
    } else if m < n {
      TailIsLongest(c, subs, m, n);
    }
  }

  lemma TailSnoc(c: Config, subs: seq<Submission>, n: nat, s: Submission)
    requires EligibleTail(c, subs, n)
    ensures !Eligible(c, s) ==> EligibleTail(c, subs + [s], 0)
    ensures Eligible(c, s) ==>
      var same := n > 0 && SortedIds(subs[|subs| - 1].requestIds) == SortedIds(s.requestIds);
      EligibleTail(c, subs + [s], if same then n + 1 else 1)
  {
    hide SortedIds, Eligible;
    var all := subs + [s];
    if Eligible(c, s) {
      var ids := SortedIds(s.requestIds);
      if n > 0 && SortedIds(subs[|subs| - 1].requestIds) == ids {
        EligibleRunSnoc(c, subs, |subs| - n, ids, s);
        if n < |subs| {
          assert all[|all| - (n + 1) - 1] == subs[|subs| - n - 1];
        }
      } else {
        assert EligibleRun(c, all, |subs|, ids);
        if subs != [] {
          assert all[|all| - 2] == subs[|subs| - 1];
          LastOfTail(c, subs, n);
        }
      }
    }
  }

  lemma LastOfTail(c: Config, subs: seq<Submission>, n: nat)
    requires EligibleTail(c, subs, n) && subs != []
    ensures n > 0 <==> Eligible(c, subs[|subs| - 1])
  {
    hide SortedIds, Eligible;
    if n > 0 {
      assert Continues(c, subs[|subs| - 1], SortedIds(subs[|subs| - 1].requestIds));
    }
  }

  /** Without boundary calls the base class counts the trailing run, whatever came before it. */
  lemma {:induction false} BaseCountsTail(c: Config, subs: seq<Submission>)
    ensures var o := ObserveAll(c, Init(), subs);
      && o.Ok? && o.value == Init().(ids := o.value.ids, warmed := o.value.warmed)
      && o.value.warmed >= 0 && EligibleTail(c, subs, o.value.warmed)
      && o.value.ids == (if o.value.warmed > 0 then Some(SortedIds(subs[|subs| - 1].requestIds)) else None)
  {
    hide SortedIds, Eligible, EligibleTail;
    if subs == [] {
      NoTail(c);
    } else {
      var front, last := subs[..|subs| - 1], subs[|subs| - 1];
      BaseCountsTail(c, front);
      TailSnoc(c, front, ObserveAll(c, Init(), front).value.warmed, last);
      assert subs == front + [last];
    }
  }

  lemma NoTail(c: Config)
    ensures EligibleTail(c, [], 0)
  {
  }

  // ---------- eligibility from first principles ----------

  /** Pure decode after admission, one token for each of `concurrency` different requests. */
  ghost predicate Resident(c: Config, s: Submission) {
    && s.isDecode && s.admissionComplete && s.tokens == c.concurrency
    && |s.requestIds| == c.concurrency && Distinct(s.requestIds)
  }

  /** Such a submission over the same requests as another. */
  ghost predicate Repeats(c: Config, s: Submission, s': Submission) {
    Resident(c, s) && multiset(s.requestIds) == multiset(s'.requestIds)
  }

  /** The last n submissions are one resident batch, n times, and the submission before them is not. */
  ghost predicate TrailingRun(c: Config, subs: seq<Submission>, n: nat) {
    && n <= |subs|
    && (n == 0 && subs != [] ==> !Resident(c, subs[|subs| - 1]))
    && (n > 0 ==> forall i: nat :: |subs| - n <= i < |subs| ==> Repeats(c, subs[i], subs[|subs| - 1]))
    && (0 < n < |subs| ==> !Repeats(c, subs[|subs| - n - 1], subs[|subs| - 1]))
  }

  lemma {:induction false} DistinctSet(s: seq<int>)
    requires Distinct(s)
    ensures |SetOf(s)| == |s|
  {
    if s != [] {
      var front, last := s[..|s| - 1], s[|s| - 1];
      DistinctSet(front);
      assert s == front + [last];
      assert SetOf(s) == SetOf(front) + {last};
      assert last !in front;
    }
  }

  lemma EligibleExactly(c: Config, s: Submission)
    ensures Eligible(c, s) <==> Resident(c, s)
  {
    SetOfDistinct(s.requestIds);
    if Distinct(s.requestIds) {
      DistinctSet(s.requestIds);
    }
  }

  lemma SortedAlike(a: seq<int>, b: seq<int>)
    ensures SortedIds(a) == SortedIds(b) <==> multiset(a) == multiset(b)
  {
    SortSorted(IntLe, a);
    SortSorted(IntLe, b);
    if multiset(a) == multiset(b) {
      SortedUnique(IntLe, SortedIds(a), SortedIds(b));
    }
  }

  lemma ContinuesExactly(c: Config, s: Submission, s': Submission)
    ensures Continues(c, s, SortedIds(s'.requestIds)) <==> Repeats(c, s, s')
  {
    hide SortedIds, Eligible;
    EligibleExactly(c, s);
    SortedAlike(s.requestIds, s'.requestIds);
  }

  lemma TailExactly(c: Config, subs: seq<Submission>, n: nat)
    ensures EligibleTail(c, subs, n) <==> TrailingRun(c, subs, n)
  {
    hide SortedIds, Eligible, Repeats, Resident, Continues;
    if n <= |subs| && subs != [] {
      var last := subs[|subs| - 1];
      EligibleExactly(c, last);
      forall i: nat | i < |subs| ensures Continues(c, subs[i], SortedIds(last.requestIds)) <==> Repeats(c, subs[i], last) {
        ContinuesExactly(c, subs[i], last);
      }
    }
  }

  /**
   The base class has no guard between observations: after any observations its boundary opens the
   window exactly when the trailing run is `warmupSteps` long, so a longer run never opens it.
   */
  lemma BaseWindowOpensOnlyExactly(c: Config, subs: seq<Submission>, now: real, graphs: GraphStats)
    requires Positive(c)
    ensures var o := ObserveAll(c, Init(), subs);
      && o.Ok? && BaseBoundary(c, o.value, now, graphs).Ok?
      && (BaseBoundary(c, o.value, now, graphs).value.started.Some? <==> TrailingRun(c, subs, c.warmupSteps))
  {
    hide SortedIds, Eligible, EligibleTail, TrailingRun, ObserveAll;
    BaseCountsTail(c, subs);
    TailExactly(c, subs, c.warmupSteps);
    if TrailingRun(c, subs, c.warmupSteps) {
      TailUnique(c, subs, c.warmupSteps, ObserveAll(c, Init(), subs).value.warmed);
    }
  }

  lemma ObserveMeasured(c: Config, w: Window, s: Submission)
    requires w.started.Some? && w.result.None? && w.ids.Some?
    ensures Observe(c, w, s).Ok? <==> Continues(c, s, w.ids.value)
    ensures Observe(c, w, s).Ok? ==> Observe(c, w, s).value == w.(steps := w.steps + 1, tokens := w.tokens + c.concurrency)
  {
    hide SortedIds;
  }

  lemma EligibleRunFront(c: Config, subs: seq<Submission>, ids: seq<int>)
    requires subs != []
    ensures EligibleRun(c, subs, 0, ids) <==> EligibleRun(c, subs[..|subs| - 1], 0, ids) && Continues(c, subs[|subs| - 1], ids)
  {
    hide Continues;
    assert forall i :: 0 <= i < |subs| - 1 ==> subs[..|subs| - 1][i] == subs[i];
  }

  /** Once started, the base class accepts exactly the observations of its batch, and counts them. */
  lemma {:induction false} BaseCountsSteps(c: Config, w: Window, subs: seq<Submission>)
    requires w.started.Some? && w.result.None? && w.ids.Some?
    ensures ObserveAll(c, w, subs).Ok? <==> EligibleRun(c, subs, 0, w.ids.value)
    ensures ObserveAll(c, w, subs).Ok? ==>
      ObserveAll(c, w, subs).value == w.(steps := w.steps + |subs|, tokens := w.tokens + c.concurrency * |subs|)
  {
    hide Continues, Observe;
    if subs == [] {
      assert c.concurrency * 0 == 0;
    } else {
      var front := subs[..|subs| - 1];
      BaseCountsSteps(c, w, front);
      EligibleRunFront(c, subs, w.ids.value);
      if ObserveAll(c, w, front).Ok? {
        ObserveMeasured(c, ObserveAll(c, w, front).value, subs[|subs| - 1]);
        assert c.concurrency * |subs| == c.concurrency * |front| + c.concurrency;
      }
    }
  }

  /**
   The closing edge is no different: from a started window, a boundary after any accepted
   observations publishes exactly when they make up `targetSteps`, every counter set replayed once
   per step, and time has passed; after one observation too many nothing ever publishes.
   */
  lemma BaseWindowPublishesOnlyExactly(c: Config, w: Window, subs: seq<Submission>, now: real, graphs: GraphStats)
    requires Positive(c) && w.started.Some? && w.graphBefore.Some? && w.ids.Some? && w.result.None?
    requires w.tokens == c.concurrency * w.steps && ObserveAll(c, w, subs).Ok?
    ensures var b := BaseBoundary(c, ObserveAll(c, w, subs).value, now, graphs);
      b.Ok? && b.value.result.Some? <==>
        && w.steps + |subs| == c.targetSteps
        && OnlyReplays(w.graphBefore.value, graphs, c.targetSteps) && now > w.started.value
  {
    hide SortedIds, Eligible, GraphDelta, OnlyReplays, ObserveAll, EligibleRun;
    BaseCountsSteps(c, w, subs);
    GraphDeltaAccepts(w.graphBefore.value, graphs, c.targetSteps);
    if w.steps + |subs| == c.targetSteps {
      assert w.tokens + c.concurrency * |subs| == c.concurrency * c.targetSteps;
      assert c.concurrency * c.targetSteps > 0;
    }
  }

  /** Observations without boundary calls, and then one boundary. */
  function ObserveThenBoundary(c: Config, w: Window, subs: seq<Submission>, now: real, graphs: GraphStats): Result<Window, WindowError> {
    match ObserveAll(c, w, subs)
    case Err(e) => Err(e)
    case Ok(o) => BaseBoundary(c, o, now, graphs)
  }

  /** The window that the base class opens after a trailing run of the right length. */
  lemma BaseOpened(c: Config, subs: seq<Submission>, now: real, graphs: GraphStats)
    requires Positive(c) && TrailingRun(c, subs, c.warmupSteps)
    ensures var r := ObserveThenBoundary(c, Init(), subs, now, graphs);
      && r.Ok? && r.value.started == Some(now) && r.value.graphBefore == Some(graphs) && r.value.result.None?
      && r.value.ids == Some(SortedIds(subs[|subs| - 1].requestIds)) && r.value.steps == r.value.tokens == 0
  {
    hide SortedIds, Eligible, EligibleTail, TrailingRun, ObserveAll;
    BaseCountsTail(c, subs);
    TailExactly(c, subs, c.warmupSteps);
    TailUnique(c, subs, c.warmupSteps, ObserveAll(c, Init(), subs).value.warmed);
  }

  lemma RepeatsExactly(c: Config, subs: seq<Submission>, batch: Submission)
    ensures EligibleRun(c, subs, 0, SortedIds(batch.requestIds)) <==> forall i: nat :: i < |subs| ==> Repeats(c, subs[i], batch)
  {
    hide SortedIds, Repeats, Continues;
    forall i: nat | i < |subs| ensures Continues(c, subs[i], SortedIds(batch.requestIds)) <==> Repeats(c, subs[i], batch) {
      ContinuesExactly(c, subs[i], batch);
    }
  }

  /** What the base class publishes about a window over this batch between two readings. */
  ghost predicate BasePublishes(c: Config, r: WindowResult, batch: Submission, now: real, graphs: GraphStats, now': real) {
    && r.concurrency == c.concurrency && r.discardedSteps == c.warmupSteps && r.decodeSteps == c.targetSteps
    && r.decodeTokens == c.concurrency * c.targetSteps
    && r.startedAt == now && r.finishedAt == now' && r.elapsed == now' - now > 0.0
    && r.throughput == Some((c.concurrency * c.targetSteps) as real / (now' - now))
    && ReplaysOnly(r.graphDelta, graphs, c.targetSteps)
    && (forall i, j :: 0 <= i < j < |r.requestIds| ==> r.requestIds[i] <= r.requestIds[j])
    && multiset(r.requestIds) == multiset(batch.requestIds)
  }

  lemma BasePublished(c: Config, w: Window, batch: Submission, now: real, graphs: GraphStats, now': real, graphs': GraphStats)
    requires Positive(c) && w.started == Some(now) && w.graphBefore == Some(graphs) && w.result.None?
    requires w.ids == Some(SortedIds(batch.requestIds)) && w.tokens == c.concurrency * w.steps
    ensures var r := BaseBoundary(c, w, now', graphs');
      r.Ok? && r.value.result.Some? ==> BasePublishes(c, r.value.result.value, batch, now, graphs, now')
  {
    hide GraphDelta, ReplaysOnly;
    GraphDeltaReports(graphs, graphs', c.targetSteps);
    SortSorted(IntLe, batch.requestIds);
    assert w.steps == c.targetSteps ==> w.tokens > 0 by { assert c.concurrency * c.targetSteps > 0; }
  }

  /**
   A whole use of the base class: observations, one boundary, more observations, another boundary.
   After a trailing run of `warmupSteps` the second boundary publishes exactly if the observations in
   between repeat that batch `targetSteps` times, every counter set replayed once per step between
   the two readings, and time has passed between them; and what it publishes follows from these.
   */
  lemma BaseWindowLifecycle(c: Config, subs: seq<Submission>, now: real, graphs: GraphStats,
                            more: seq<Submission>, now': real, graphs': GraphStats)
    requires Positive(c) && TrailingRun(c, subs, c.warmupSteps)
    ensures var first := ObserveThenBoundary(c, Init(), subs, now, graphs);
      && first.Ok?
      && var second := ObserveThenBoundary(c, first.value, more, now', graphs'); var batch := subs[|subs| - 1];
         && (second.Ok? && second.value.result.Some? <==>
               && (forall i: nat :: i < |more| ==> Repeats(c, more[i], batch)) && |more| == c.targetSteps
               && OnlyReplays(graphs, graphs', c.targetSteps) && now' > now)
         && (second.Ok? && second.value.result.Some? ==> BasePublishes(c, second.value.result.value, batch, now, graphs, now'))
  {
    assert subs != [];
    hide SortedIds, Eligible, TrailingRun, ObserveThenBoundary, Repeats, BasePublishes, OnlyReplays;
    BaseOpened(c, subs, now, graphs);
    BaseCloses(c, ObserveThenBoundary(c, Init(), subs, now, graphs).value, subs[|subs| - 1], now, graphs, more, now', graphs');
  }

  /** The second half of that use. */
  lemma BaseCloses(c: Config, w: Window, batch: Submission, now: real, graphs: GraphStats, more: seq<Submission>, now': real, graphs': GraphStats)
    requires Positive(c) && w.started == Some(now) && w.graphBefore == Some(graphs) && w.result.None?
    requires w.ids == Some(SortedIds(batch.requestIds)) && w.steps == w.tokens == 0
    ensures var r := ObserveThenBoundary(c, w, more, now', graphs');
      && (r.Ok? && r.value.result.Some? <==>
            && (forall i: nat :: i < |more| ==> Repeats(c, more[i], batch)) && |more| == c.targetSteps
            && OnlyReplays(graphs, graphs', c.targetSteps) && now' > now)
      && (r.Ok? && r.value.result.Some? ==> BasePublishes(c, r.value.result.value, batch, now, graphs, now'))
  {
    hide SortedIds, ObserveAll, EligibleRun, BaseBoundary, OnlyReplays, Repeats, BasePublishes;
    BaseCountsSteps(c, w, more);
    RepeatsExactly(c, more, batch);
    if ObserveAll(c, w, more).Ok? {
      BaseWindowPublishesOnlyExactly(c, w, more, now', graphs');
      BasePublished(c, ObserveAll(c, w, more).value, batch, now, graphs, now', graphs');
    }
  }
}

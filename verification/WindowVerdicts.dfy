/**
 The window as a reader of its own history: what every further call does after an
 exception-free run, said in terms of the submissions, completions and edges so far.
 */
module WindowVerdicts {
  import opened Outcomes
  import opened Sorting
  import opened DecodeWindow
  import opened WindowRuns

  /** Exactly `warmupSteps` resident repetitions end the submissions, or `targetSteps` followed the first edge. */
  ghost predicate Due(c: Config, t: Trace) {
    || (|t.edges| == 0 && c.warmupSteps >= 1 && TrailingRun(c, t.subs, c.warmupSteps))
    || (|t.edges| == 1 && |t.subs| == t.edges[0].at + c.targetSteps)
  }

  // ---------- the window against its history ----------

  lemma WarmingTail(c: Config, w: Window, subs: seq<Submission>)
    requires Warming(c, w, subs)
    ensures w.warmed >= 0 && EligibleTail(c, subs, w.warmed)
  {
    hide SortedIds, Eligible;
    if w.warmed > 0 {
      assert Continues(c, subs[|subs| - 1], w.ids.value);
    }
  }

  lemma DueWhileWarming(c: Config, t: Trace)
    requires Inv(c, t.w, t.subs) && Edged(t) && t.w.started.None?
    ensures t.edges == [] && t.w.result.None? && (NeedsBoundary(c, t.w) <==> Due(c, t))
  {
    hide Ledger, TrailingRun, EligibleTail;
    WarmingTail(c, t.w, t.subs);
    TailExactly(c, t.subs, c.warmupSteps);
    if Due(c, t) {
      TailUnique(c, t.subs, c.warmupSteps, t.w.warmed);
    }
  }

  lemma DueWhileMeasuring(c: Config, t: Trace)
    requires Inv(c, t.w, t.subs) && Edged(t) && t.w.started.Some?
    ensures |t.edges| == (if t.w.result.Some? then 2 else 1)
    ensures t.edges[0].at == |t.subs| - t.w.steps && t.edges[0].now == t.w.started.value && t.w.graphBefore == Some(t.edges[0].graphs)
    ensures t.w.result.None? ==> (NeedsBoundary(c, t.w) <==> Due(c, t))
    ensures t.subs != []
  {
    hide Ledger, EligibleRun, Advance, TrailingRun, GraphDelta;
  }

  /** Two edges stand for a result, one for a started window, and an edge is due when history says so. */
  lemma PhaseIsHistory(c: Config, t: Trace)
    requires Inv(c, t.w, t.subs) && Edged(t)
    ensures |t.edges| <= 2 && (t.w.result.Some? <==> |t.edges| == 2) && (t.w.started.Some? <==> |t.edges| >= 1)
    ensures NeedsBoundary(c, t.w) <==> Due(c, t)
  {
    hide Inv, Edged, TrailingRun;
    if t.w.started.None? {
      DueWhileWarming(c, t);
    } else {
      DueWhileMeasuring(c, t);
    }
  }

  // ---------- submissions ----------

  ghost predicate GivesContexts(s: Submission) {
    |s.contextLengths| == |s.requestIds| && forall i :: 0 <= i < |s.contextLengths| ==> s.contextLengths[i] >= 0
  }

  /** Every request of the second submission is one token further than in the first. */
  ghost predicate OneFurther(s: Submission, s': Submission) {
    && GivesContexts(s) && GivesContexts(s')
    && forall a, b :: 0 <= a < |s.requestIds| && 0 <= b < |s'.requestIds| && s.requestIds[a] == s'.requestIds[b] ==>
         s'.contextLengths[b] == s.contextLengths[a] + 1
  }

  /** The error that a submission meets when no result stands, if any. */
  ghost predicate SubmitFails(c: Config, t: Trace, s: Submission, e: WindowError) {
    if Due(c, t) then e == CrossedEdge
    else if s.preemptions != 0 then e == Preempted
    else if !GivesContexts(s) then e == MissingContexts
    else if t.edges == [] || t.subs == [] then false
    else if !Repeats(c, s, t.subs[|t.subs| - 1]) then e == Contaminated
    else |t.subs| > t.edges[0].at && !OneFurther(t.subs[|t.subs| - 1], s) && e == ContextJump
  }

  lemma RequestOfRank(s: Submission, k: nat) returns (a: nat)
    requires HasContexts(s) && k < |OrderedIds(s)|
    ensures a < |s.requestIds| && k < |OrderedContexts(s)|
    ensures OrderedIds(s)[k] == s.requestIds[a] && OrderedContexts(s)[k] == s.contextLengths[a]
  {
    var zipped := Zip(s.requestIds, s.contextLengths);
    MultisetMember(zipped, Pairs(s), Pairs(s)[k]);
    a :| 0 <= a < |zipped| && zipped[a] == Pairs(s)[k];
  }

  lemma OrderedLengths(s: Submission)
    requires HasContexts(s)
    ensures |OrderedIds(s)| == |OrderedContexts(s)| == |s.requestIds|
  {
  }

  /** Comparing contexts in id order compares every request with itself. */
  lemma AdvanceIsOneFurther(c: Config, s: Submission, s': Submission)
    requires HasContexts(s) && HasContexts(s') && Eligible(c, s) && SortedIds(s'.requestIds) == SortedIds(s.requestIds)
    ensures OrderedContexts(s') == Advance(OrderedContexts(s), 1) <==> OneFurther(s, s')
  {
    hide SortedIds, OrderedIds, OrderedContexts, Eligible, OneFurther;
    if OrderedContexts(s') == Advance(OrderedContexts(s), 1) {
      FollowAll(c, s, s', 1);
      FurtherIsApart(s, s');
    }
    if OneFurther(s, s') {
      OrderedIdsAreSorted(s);
      OrderedIdsAreSorted(s');
      OrderedLengths(s);
      OrderedLengths(s');
      forall k: nat | k < |OrderedContexts(s)| ensures OrderedContexts(s')[k] == Advance(OrderedContexts(s), 1)[k] {
        var a := RequestOfRank(s, k);
        var b := RequestOfRank(s', k);
        FurtherAt(s, s', a, b);
      }
    }
  }

  lemma FurtherIsApart(s: Submission, s': Submission)
    requires TokensApart(s, s', 1)
    ensures OneFurther(s, s')
  {
  }

  lemma FurtherAt(s: Submission, s': Submission, a: nat, b: nat)
    requires HasContexts(s) && HasContexts(s') && OneFurther(s, s')
    requires a < |s.requestIds| && b < |s'.requestIds| && s.requestIds[a] == s'.requestIds[b]
    ensures s'.contextLengths[b] == s.contextLengths[a] + 1
  {
  }

  /** The last submission of a started window: its batch, and what is remembered of its contexts. */
  lemma LastMeasured(c: Config, w: Window, subs: seq<Submission>)
    requires Inv(c, w, subs) && w.started.Some?
    ensures subs != [] && w.ids.Some? && w.steps >= 0
    ensures var last := subs[|subs| - 1];
      && Eligible(c, last) && HasContexts(last) && w.ids == Some(SortedIds(last.requestIds))
      && w.lastMeasured == if w.steps == 0 then None else Some(OrderedContexts(last))
  {
    hide SortedIds, Eligible, OrderedContexts, OrderedIds, Advance;
    var n := |subs| - 1;
    assert Continues(c, subs[n], w.ids.value);
    assert Describes(w.records[n], n, subs[n]);
  }

  lemma SubmitWarming(c: Config, w: Window, s: Submission)
    requires w.result.None? && w.started.None?
    ensures SubmitStep(c, w, s).Ok? <==> !NeedsBoundary(c, w) && s.preemptions == 0 && HasContexts(s)
  {
    hide Eligible, SortedIds, OrderedIds, OrderedContexts, Advance;
  }

  lemma SubmitMeasuring(c: Config, w: Window, s: Submission)
    requires w.result.None? && w.started.Some? && w.ids.Some?
    ensures SubmitStep(c, w, s).Ok? <==>
      && !NeedsBoundary(c, w) && s.preemptions == 0 && HasContexts(s) && Continues(c, s, w.ids.value)
      && (w.lastMeasured.Some? ==> OrderedContexts(s) == Advance(w.lastMeasured.value, 1))
    ensures SubmitStep(c, w, s).Err? && !NeedsBoundary(c, w) && s.preemptions == 0 && HasContexts(s) ==>
      SubmitStep(c, w, s).error == if Continues(c, s, w.ids.value) then ContextJump else Contaminated
  {
    hide Eligible, SortedIds, OrderedIds, OrderedContexts, Advance;
  }

  lemma SubmitRefusals(c: Config, w: Window, s: Submission)
    requires w.result.None?
    ensures NeedsBoundary(c, w) ==> SubmitStep(c, w, s) == Err(CrossedEdge)
    ensures !NeedsBoundary(c, w) && s.preemptions != 0 ==> SubmitStep(c, w, s) == Err(Preempted)
    ensures !NeedsBoundary(c, w) && s.preemptions == 0 && !HasContexts(s) ==> SubmitStep(c, w, s) == Err(MissingContexts)
  {
    hide Eligible, SortedIds, OrderedIds, OrderedContexts, Advance;
  }

  /** After a result a submission is ignored; otherwise it fails exactly as its history says, or is recorded. */
  lemma SubmitVerdict(c: Config, events: seq<Event>, s: Submission)
    requires Positive(c) && Run(c, events).Ok?
    ensures var t := Run(c, events).value; var r := Run(c, events + [Submit(s)]);
      if |t.edges| == 2 then r == Ok(t)
      else
        && (forall e :: r == Err(e) <==> SubmitFails(c, t, s, e))
        && (r.Ok? ==> r.value.subs == t.subs + [s] && r.value.edges == t.edges)
  {
    hide Inv, Run, Step, Edged, SubmitFails;
    RunKeeps(c, events);
    RecordStep(c, events, Run(c, events).value, Submit(s));
    SubmitDecided(c, Run(c, events).value, s);
  }

  lemma SubmitDecided(c: Config, t: Trace, s: Submission)
    requires Inv(c, t.w, t.subs) && Edged(t)
    ensures var r := Step(c, t, Submit(s));
      if |t.edges| == 2 then r == Ok(t)
      else
        && (forall e :: r == Err(e) <==> SubmitFails(c, t, s, e))
        && (r.Ok? ==> r.value.subs == t.subs + [s] && r.value.edges == t.edges)
  {
    hide Inv, SubmitStep, Due, NeedsBoundary, SortedIds, OrderedContexts, OrderedIds, Advance, Eligible, Continues, OneFurther, Repeats, Edged;
    PhaseIsHistory(c, t);
    if t.w.result.Some? {
      Ignored(c, t.w, s);
    } else {
      SubmitRefusals(c, t.w, s);
      TicketGiven(c, t.w, s);
      if t.w.started.None? {
        SubmitWarming(c, t.w, s);
      } else {
        MeasuringVerdict(c, t, s);
      }
    }
  }

  lemma TicketGiven(c: Config, w: Window, s: Submission)
    requires w.result.None?
    ensures SubmitStep(c, w, s).Ok? ==> SubmitStep(c, w, s).value.1.Some?
  {
    hide SubmitStep;
    if SubmitStep(c, w, s).Ok? {
      SubmitBooks(c, w, s);
    }
  }

  lemma Ignored(c: Config, w: Window, s: Submission)
    requires w.result.Some?
    ensures SubmitStep(c, w, s) == Ok((w, None))
  {
  }

  lemma MeasuringVerdict(c: Config, t: Trace, s: Submission)
    requires Inv(c, t.w, t.subs) && Edged(t) && t.w.started.Some? && t.w.result.None?
    ensures t.subs != [] && t.edges != []
    ensures !NeedsBoundary(c, t.w) && s.preemptions == 0 && HasContexts(s) ==>
      var last := t.subs[|t.subs| - 1];
      SubmitStep(c, t.w, s).Ok? <==> Repeats(c, s, last) && (|t.subs| > t.edges[0].at ==> OneFurther(last, s))
    ensures SubmitStep(c, t.w, s).Err? && !NeedsBoundary(c, t.w) && s.preemptions == 0 && HasContexts(s) ==>
      SubmitStep(c, t.w, s).error == if Repeats(c, s, t.subs[|t.subs| - 1]) then ContextJump else Contaminated
  {
    hide Inv, SubmitStep, NeedsBoundary, SortedIds, OrderedContexts, OrderedIds, Advance, Eligible, OneFurther, Repeats, Edged;
    DueWhileMeasuring(c, t);
    LastMeasured(c, t.w, t.subs);
    var last := t.subs[|t.subs| - 1];
    SubmitMeasuring(c, t.w, s);
    ContinuesExactly(c, s, last);
    if HasContexts(s) && SortedIds(s.requestIds) == SortedIds(last.requestIds) {
      AdvanceIsOneFurther(c, last, s);
    }
  }

  // ---------- completions ----------

  /** Ticket k was issued, and no call so far completed it. */
  ghost predicate Open(events: seq<Event>, subs: seq<Submission>, k: nat) {
    k < |subs| && forall i :: 0 <= i < |events| ==> !Completes(events[i], k)
  }

  ghost predicate Completes(e: Event, k: nat) {
    e.Complete? && e.ticket == Some(k)
  }

  lemma OpenNext(events: seq<Event>, e: Event, subs: seq<Submission>, subs': seq<Submission>, k: nat)
    requires subs <= subs'
    ensures k < |subs| ==> (Open(events + [e], subs', k) <==> Open(events, subs, k) && !Completes(e, k))
  {
    hide Completes;
    var all := events + [e];
    assert all[|events|] == e;
    assert forall i :: 0 <= i < |events| ==> all[i] == events[i];
  }

  /** Nothing completes a ticket before it is issued. */
  lemma {:induction false} OnlyIssuedComplete(c: Config, events: seq<Event>, i: nat, k: nat)
    requires Positive(c) && Run(c, events).Ok? && i < |events| && Completes(events[i], k)
    ensures k < |Run(c, events).value.subs|
  {
    hide Inv, Step;
    var front, last := events[..|events| - 1], events[|events| - 1];
    RunKeeps(c, front);
    var t := Run(c, front).value;
    HistoryGrows(c, t, last);
    if i < |front| {
      OnlyIssuedComplete(c, front, i, k);
    } else {
      CompletedInRange(c, t, k, last);
    }
  }

  lemma HistoryGrows(c: Config, t: Trace, e: Event)
    ensures Step(c, t, e).Ok? ==> t.subs <= Step(c, t, e).value.subs
    ensures Step(c, t, e).Ok? && !e.Submit? ==> Step(c, t, e).value.subs == t.subs
  {
    hide SubmitStep, CompleteStep, BoundaryStep;
  }

  lemma CompletedInRange(c: Config, t: Trace, k: nat, e: Event)
    requires Inv(c, t.w, t.subs) && Completes(e, k) && Step(c, t, e).Ok?
    ensures k < |t.subs|
  {
    hide Warming, Measuring, Published, Describes;
  }

  /** The pending tickets are the open ones. */
  lemma {:induction false} PendingIsOpen(c: Config, events: seq<Event>, k: nat)
    requires Positive(c) && Run(c, events).Ok?
    ensures k in Run(c, events).value.w.pending <==> Open(events, Run(c, events).value.subs, k)
  {
    hide Inv, Step, Completes;
    if events != [] {
      var front, last := events[..|events| - 1], events[|events| - 1];
      RunKeeps(c, front);
      var t := Run(c, front).value;
      PendingIsOpen(c, front, k);
      HistoryGrows(c, t, last);
      assert events == front + [last];
      OpenNext(front, last, t.subs, Run(c, events).value.subs, k);
      PendingNext(c, t, last, k);
      if k >= |t.subs| && k < |Run(c, events).value.subs| {
        NewTicketIsOpen(c, front, last, k);
      }
    }
  }

  lemma NewTicketIsOpen(c: Config, front: seq<Event>, last: Event, k: nat)
    requires Positive(c) && Run(c, front).Ok? && |Run(c, front).value.subs| <= k && !Completes(last, k)
    ensures forall i :: 0 <= i < |front + [last]| ==> !Completes((front + [last])[i], k)
  {
    hide Completes, Run;
    forall i | 0 <= i < |front| ensures !Completes(front[i], k) {
      if Completes(front[i], k) {
        OnlyIssuedComplete(c, front, i, k);
      }
    }
  }

  /** What a call does to one ticket. */
  lemma PendingNext(c: Config, t: Trace, e: Event, k: nat)
    requires Inv(c, t.w, t.subs) && Step(c, t, e).Ok?
    ensures var t' := Step(c, t, e).value;
      if k < |t.subs| then k in t'.w.pending <==> k in t.w.pending && !Completes(e, k)
      else (k in t'.w.pending <==> k < |t'.subs|) && (k < |t'.subs| ==> e.Submit? && !Completes(e, k))
  {
    hide Inv, SubmitStep, BoundaryStep;
    TicketsBelow(c, t.w, t.subs);
    match e
    case Submit(s) =>
      if t.w.result.Some? {
        Ignored(c, t.w, s);
      } else {
        TicketGiven(c, t.w, s);
        SubmitBooks(c, t.w, s);
      }
    case Complete(ticket, n) =>
    case Boundary(now, graphs) =>
      BoundaryPending(c, t.w, now, graphs);
  }

  lemma TicketsBelow(c: Config, w: Window, subs: seq<Submission>)
    requires Inv(c, w, subs)
    ensures w.submitted == |subs| == |w.records|
    ensures forall t :: t in w.pending ==> w.pending[t] == t < |subs|
  {
    hide Warming, Measuring, Published, Describes;
  }

  lemma RowTokens(c: Config, w: Window, subs: seq<Submission>, k: nat)
    requires Inv(c, w, subs) && k < |subs|
    ensures k < |w.records| && w.records[k].pureDecode == subs[k].isDecode && w.records[k].tokens == subs[k].tokens
  {
    hide Warming, Measuring, Published, OrderedIds, OrderedContexts;
    assert Describes(w.records[k], k, subs[k]);
  }

  /** A completion is refused exactly for a ticket that is not open, or for a decode batch's wrong count. */
  lemma CompleteVerdict(c: Config, events: seq<Event>, ticket: Option<nat>, n: Option<int>)
    requires Positive(c) && Run(c, events).Ok?
    ensures var t := Run(c, events).value; var r := Run(c, events + [Event.Complete(ticket, n)]);
      if ticket.None? then r == Ok(t)
      else if !Open(events, t.subs, ticket.value) then r == Err(UnknownTicket)
      else if t.subs[ticket.value].isDecode && n != Some(t.subs[ticket.value].tokens) then r == Err(TokenMismatch)
      else
        && r.Ok? && r.value.subs == t.subs && r.value.edges == t.edges && ticket.value < |t.w.records|
        && r.value.w.records == t.w.records[ticket.value := t.w.records[ticket.value].(completed := true, completedDecodeTokens := n)]
  {
    hide Inv, Open, Run;
    var t := Run(c, events).value;
    RunKeeps(c, events);
    RecordStep(c, events, t, Event.Complete(ticket, n));
    if ticket.Some? {
      PendingIsOpen(c, events, ticket.value);
      TicketsBelow(c, t.w, t.subs);
      if Open(events, t.subs, ticket.value) {
        RowTokens(c, t.w, t.subs, ticket.value);
      }
    }
  }

  // ---------- boundaries ----------

  /** The result after a boundary is the one that accounts for its readings. */
  ghost predicate Publishes(c: Config, t: Trace, t': Trace, now: real, graphs: GraphStats) {
    t'.subs == t.subs && t'.edges == t.edges + [Edge(|t.subs|, now, graphs)] && Vouches(c, t'.w, t'.subs) && Accounts(c, t')
  }

  /**
   A boundary acts exactly when an edge is due: it is refused while tickets are open, opens the window
   at the first edge, and at the second publishes unless the readings since the first are refused.
   */
  lemma BoundaryVerdict(c: Config, events: seq<Event>, now: real, graphs: GraphStats)
    requires Positive(c) && Run(c, events).Ok?
    ensures var t := Run(c, events).value; var r := Run(c, events + [Boundary(now, graphs)]);
      if !Due(c, t) then r == Ok(t)
      else if exists k :: Open(events, t.subs, k) then r == Err(UndrainedBoundary)
      else if t.edges == [] then r.Ok? && r.value.subs == t.subs && r.value.edges == [Edge(|t.subs|, now, graphs)] && r.value.w.result.None?
      else if !OnlyReplays(t.edges[0].graphs, graphs, c.targetSteps) then r == Err(GraphViolation)
      else if now <= t.edges[0].now then r == Err(BadStageTime)
      else r.Ok? && Publishes(c, t, r.value, now, graphs)
  {
    hide Inv, Open, Run, Due, Edged, BoundaryStep, Publishes, OnlyReplays;
    var t := Run(c, events).value;
    RunKeeps(c, events);
    RecordStep(c, events, t, Boundary(now, graphs));
    PhaseIsHistory(c, t);
    if !NeedsBoundary(c, t.w) {
      NothingDue(c, t.w, now, graphs);
    } else {
      DrainedIsClosed(c, events);
      if t.w.pending != map[] {
        Undrained(c, t.w, now, graphs);
      } else if t.w.started.None? {
        FirstEdgeOpens(c, t, now, graphs);
      } else {
        SecondEdge(c, events, now, graphs);
      }
    }
  }

  lemma NothingDue(c: Config, w: Window, now: real, graphs: GraphStats)
    requires !NeedsBoundary(c, w)
    ensures BoundaryStep(c, w, now, graphs) == Ok(w)
  {
  }

  lemma Undrained(c: Config, w: Window, now: real, graphs: GraphStats)
    requires NeedsBoundary(c, w) && w.pending != map[]
    ensures BoundaryStep(c, w, now, graphs) == Err(UndrainedBoundary)
  {
  }

  lemma FirstEdgeOpens(c: Config, t: Trace, now: real, graphs: GraphStats)
    requires NeedsBoundary(c, t.w) && t.w.started.None? && t.w.pending == map[]
    ensures BoundaryStep(c, t.w, now, graphs).Ok? && BoundaryStep(c, t.w, now, graphs).value.result.None?
  {
    FirstEdgeStep(c, t.w, now, graphs);
  }

  lemma DrainedIsClosed(c: Config, events: seq<Event>)
    requires Positive(c) && Run(c, events).Ok?
    ensures Run(c, events).value.w.pending == map[] <==> !exists k :: Open(events, Run(c, events).value.subs, k)
  {
    hide Run, Open;
    var t := Run(c, events).value;
    forall k: nat ensures k in t.w.pending <==> Open(events, t.subs, k) {
      PendingIsOpen(c, events, k);
    }
    if t.w.pending != map[] {
      assert t.w.pending.Keys != {};
      var k := SomeMember(t.w.pending.Keys);
      assert Open(events, t.subs, k);
    }
  }

  /** The readings decide about the second edge. */
  lemma SecondReadings(c: Config, w: Window, subs: seq<Submission>, now: real, graphs: GraphStats)
    requires Inv(c, w, subs) && NeedsBoundary(c, w) && w.started.Some? && w.pending == map[]
    ensures w.graphBefore.Some?
    ensures var r := BoundaryStep(c, w, now, graphs);
      if !OnlyReplays(w.graphBefore.value, graphs, c.targetSteps) then r == Err(GraphViolation)
      else if now <= w.started.value then r == Err(BadStageTime)
      else r.Ok? && r.value.result.Some?
  {
    hide Inv, OnlyReplays, GraphDelta, Summarize;
    SecondEdgeState(c, w, subs);
    SecondEdgeRows(c, w, subs);
    SecondEdgeSummarizes(c, w, subs, now, graphs);
    GraphDeltaAccepts(w.graphBefore.value, graphs, c.targetSteps);
    GraphDeltaErrs(w.graphBefore.value, graphs, c.targetSteps);
    if BoundaryStep(c, w, now, graphs).Ok? {
      SecondEdgePublishes(c, w, subs, now, graphs);
    }
  }

  lemma GraphDeltaErrs(before: GraphStats, after: GraphStats, steps: int)
    ensures GraphDelta(before, after, steps).Err? ==> GraphDelta(before, after, steps).error == GraphViolation
  {
  }

  lemma SecondEdge(c: Config, events: seq<Event>, now: real, graphs: GraphStats)
    requires Positive(c) && Run(c, events).Ok?
    requires var t := Run(c, events).value; NeedsBoundary(c, t.w) && t.w.started.Some? && t.w.pending == map[]
    ensures var t := Run(c, events).value; var r := Run(c, events + [Boundary(now, graphs)]);
      && t.edges != []
      && if !OnlyReplays(t.edges[0].graphs, graphs, c.targetSteps) then r == Err(GraphViolation)
         else if now <= t.edges[0].now then r == Err(BadStageTime)
         else r.Ok? && Publishes(c, t, r.value, now, graphs)
  {
    hide Inv, Run, Edged, BoundaryStep, OnlyReplays, Vouches, Accounts;
    var t := Run(c, events).value;
    RunKeeps(c, events);
    RecordStep(c, events, t, Boundary(now, graphs));
    DueWhileMeasuring(c, t);
    SecondReadings(c, t.w, t.subs, now, graphs);
    var more := events + [Boundary(now, graphs)];
    if Run(c, more).Ok? {
      ResultDescribesRun(c, more);
      ResultAccounts(c, more);
    }
  }
}

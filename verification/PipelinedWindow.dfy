/** The window as the mutable object that the engine adapters hold. */
module PipelinedWindow {
  import opened Outcomes
  import opened Sorting
  import opened DecodeWindow
  import opened WindowRuns

  /** Everything about a window that completions leave alone. */
  datatype Standing = Standing(
    started: Option<real>, graphBefore: Option<GraphStats>, warmed: int, steps: int, result: Option<WindowResult>,
    history: seq<Submission>, edges: seq<Edge>)

  class PipelinedDecodeWindow {
    const config: Config
    var ids: Option<seq<int>>
    var warmed: int
    var steps: int
    var tokens: int
    var started: Option<real>
    var graphBefore: Option<GraphStats>
    var result: Option<WindowResult>
    var pending: map<nat, nat>
    var records: seq<Row>
    var submitted: nat
    var lastMeasured: Option<seq<int>>
    ghost var syncs: nat
    ghost var history: seq<Submission>  // the submissions accepted so far
    ghost var edges: seq<Edge>          // the edges closed so far
    ghost var events: seq<Event>        // the calls made so far

    ghost function View(): Window
      reads this
    {
      Window(ids, warmed, steps, tokens, started, graphBefore, result, pending, records, submitted, lastMeasured, syncs)
    }

    ghost function Log(): Trace
      reads this
    {
      Trace(View(), history, edges)
    }

    ghost function Stand(): Standing
      reads this
    {
      Standing(started, graphBefore, warmed, steps, result, history, edges)
    }

    /** The window is in the state to which its calls lead, and keeps the run invariant. */
    ghost predicate Valid()
      reads this
    {
      Inv(config, View(), history) && Records(config, events, Log())
    }

    constructor (c: Config)
      requires Positive(c)
      ensures config == c && Log() == Trace(Init(), [], []) && Valid()
    {
      config := c;
      ids, warmed, steps, tokens := None, 0, 0, 0;
      started, graphBefore, result := None, None, None;
      pending, records, submitted, lastMeasured := map[], [], 0, None;
      syncs, history, edges, events := 0, [], [], [];
    }

    /** Construction rejects non-positive settings. */
    static method Make(c: Config) returns (r: Result<PipelinedDecodeWindow, WindowError>)
      ensures r.Ok? <==> Positive(c)
      ensures r.Ok? ==> fresh(r.value) && r.value.config == c && r.value.Log() == Trace(Init(), [], []) && r.value.Valid()
      ensures r.Err? ==> r.error == NonPositiveConfig
    {
      if c.concurrency < 1 || c.targetSteps < 1 || c.warmupSteps < 1 {
        return Err(NonPositiveConfig);
      }
      var window := new PipelinedDecodeWindow(c);
      return Ok(window);
    }

    predicate EdgeDue()
      reads this
      ensures EdgeDue() <==> NeedsBoundary(config, View())
    {
      result.None? && (
        || (started.None? && warmed == config.warmupSteps)
        || (started.Some? && steps == config.targetSteps))
    }

    method ObserveStep(s: Submission) returns (r: Result<(), WindowError>)
      modifies this`ids, this`warmed, this`steps, this`tokens
      ensures Observe(config, old(View()), s).Err? ==> r == Err(Observe(config, old(View()), s).error)
      ensures Observe(config, old(View()), s).Ok? ==> r.Ok? && View() == Observe(config, old(View()), s).value
    {
      if result.Some? {
        return Ok(());
      }
      var sorted := Some(SortedIds(s.requestIds));
      var eligible := Eligible(config, s);
      if started.Some? {
        if !eligible || sorted != ids {
          return Err(Contaminated);
        }
        steps := steps + 1;
        tokens := tokens + s.tokens;
      } else if eligible {
        if sorted != ids {
          ids, warmed := sorted, 0;
        }
        warmed := warmed + 1;
      } else {
        ids, warmed := None, 0;
      }
      return Ok(());
    }

    /** Appends the record of an observed submission and hands out its ticket. */
    method Append(s: Submission, measured: bool, orderedContexts: seq<int>) returns (ticket: nat)
      requires HasContexts(s) && orderedContexts == OrderedContexts(s)
      modifies this`lastMeasured, this`submitted, this`pending, this`records
      ensures ticket == old(submitted) && submitted == old(submitted) + 1
      ensures lastMeasured == if measured then Some(orderedContexts) else old(lastMeasured)
      ensures pending == old(pending)[old(submitted) := |old(records)|]
      ensures records == old(records) + [RowOf(s, old(submitted), measured)]
    {
      hide OrderedIds, OrderedContexts;
      if measured {
        lastMeasured := Some(orderedContexts);
      }
      ticket := submitted;
      submitted := submitted + 1;
      var row := Row(ticket, s.isDecode, OrderedIds(s), orderedContexts, s.tokens, measured, false, None);
      pending := pending[ticket := |records|];
      records := records + [row];
    }

    /** The executable part of a submission. */
    method Track(s: Submission) returns (r: Result<Option<nat>, WindowError>)
      modifies this`ids, this`warmed, this`steps, this`tokens, this`lastMeasured, this`submitted, this`pending, this`records
      ensures SubmitStep(config, old(View()), s).Err? ==> r == Err(SubmitStep(config, old(View()), s).error)
      ensures SubmitStep(config, old(View()), s).Ok? ==>
        r == Ok(SubmitStep(config, old(View()), s).value.1) && View() == SubmitStep(config, old(View()), s).value.0
    {
      hide Observe, Eligible, SortedIds, Advance, OrderedIds, OrderedContexts;
      if result.Some? {
        return Ok(None);
      }
      if EdgeDue() {
        return Err(CrossedEdge);
      }
      if s.preemptions != 0 {
        return Err(Preempted);
      }
      if !HasContexts(s) {
        return Err(MissingContexts);
      }
      var measured := started.Some?;
      var observed := ObserveStep(s);
      if observed.Err? {
        return Err(observed.error);
      }
      var orderedContexts := OrderedContexts(s);
      if measured && lastMeasured.Some? && orderedContexts != Advance(lastMeasured.value, 1) {
        return Err(ContextJump);
      }
      var ticket := Append(s, measured, orderedContexts);
      return Ok(Some(ticket));
    }

    method Submit(s: Submission) returns (r: Result<Option<nat>, WindowError>)
      requires Valid()
      modifies this
      ensures SubmitStep(config, old(View()), s).Err? ==> r == Err(SubmitStep(config, old(View()), s).error)
      ensures SubmitStep(config, old(View()), s).Ok? ==>
        && r == Ok(SubmitStep(config, old(View()), s).value.1)
        && View() == SubmitStep(config, old(View()), s).value.0
        && history == (if old(result).Some? then old(history) else old(history) + [s])
        && events == old(events) + [Event.Submit(s)] && Valid()
      ensures r.Err? ==> events == old(events) && Run(config, events + [Event.Submit(s)]) == Err(r.error)
      ensures edges == old(edges) && result == old(result) && started == old(started) && graphBefore == old(graphBefore)
    {
      hide Inv, SubmitStep, Records, Run;
      ghost var before := View();
      RecordStep(config, events, Log(), Event.Submit(s));
      if SubmitStep(config, before, s).Ok? {
        SubmitKeeps(config, before, history, s);
      }
      ghost var accepted := if result.Some? then [] else [s];
      r := Track(s);
      if r.Ok? {
        assert history + [] == history;
        history, events := history + accepted, events + [Event.Submit(s)];
      }
    }

    method Complete(ticket: Option<nat>, decodeTokens: Option<int>) returns (r: Result<(), WindowError>)
      requires Valid()
      modifies this
      ensures CompleteStep(old(View()), ticket, decodeTokens).Err? ==> r == Err(CompleteStep(old(View()), ticket, decodeTokens).error)
      ensures CompleteStep(old(View()), ticket, decodeTokens).Ok? ==>
        && r.Ok? && View() == CompleteStep(old(View()), ticket, decodeTokens).value
        && events == old(events) + [Event.Complete(ticket, decodeTokens)] && Valid()
      ensures r.Err? ==> events == old(events) && Run(config, events + [Event.Complete(ticket, decodeTokens)]) == Err(r.error)
      ensures Stand() == old(Stand())
    {
      hide Inv, Records, Run;
      RecordStep(config, events, Log(), Event.Complete(ticket, decodeTokens));
      PendingInRange(config, View(), history);
      if ticket.None? {
        events := events + [Event.Complete(ticket, decodeTokens)];
        return Ok(());
      }
      if ticket.value !in pending {
        return Err(UnknownTicket);
      }
      if CompleteStep(View(), ticket, decodeTokens).Ok? {
        CompleteKeeps(config, View(), history, ticket, decodeTokens);
      }
      var at := pending[ticket.value];
      var row := records[at];
      pending := pending - {ticket.value};
      if row.pureDecode && decodeTokens != Some(row.tokens) {
        return Err(TokenMismatch);
      }
      records := records[at := row.(completedDecodeTokens := decodeTokens, completed := true)];
      events := events + [Event.Complete(ticket, decodeTokens)];
      return Ok(());
    }

    method BaseEdge(now: real, graphs: GraphStats) returns (r: Result<(), WindowError>)
      modifies this`syncs, this`graphBefore, this`started, this`result
      ensures BaseBoundary(config, old(View()), now, graphs).Err? ==> r == Err(BaseBoundary(config, old(View()), now, graphs).error)
      ensures BaseBoundary(config, old(View()), now, graphs).Ok? ==>
        r.Ok? && View() == BaseBoundary(config, old(View()), now, graphs).value
    {
      if result.Some? {
        return Ok(());
      }
      if started.Some? && steps == config.targetSteps {
        syncs := syncs + 1;
        if graphBefore.None? {
          return Err(GraphViolation);
        }
        var delta := GraphDelta(graphBefore.value, graphs, steps);
        if delta.Err? {
          return Err(delta.error);
        }
        var elapsed := now - started.value;
        var rate := StageThroughput(tokens, elapsed);
        if rate.Err? {
          return Err(rate.error);
        }
        result := Some(WindowResult(
          config.concurrency, if ids.Some? then ids.value else [], config.warmupSteps, steps, tokens,
          elapsed, rate.value, delta.value, started.value, now, [], [], 0));
      } else if started.None? && warmed == config.warmupSteps {
        syncs := syncs + 1;
        graphBefore := Some(graphs);
        started := Some(now);
      }
      return Ok(());
    }

    /** The executable part of a boundary. */
    method CloseEdge(now: real, graphs: GraphStats) returns (r: Result<(), WindowError>)
      modifies this`syncs, this`graphBefore, this`started, this`result
      ensures BoundaryStep(config, old(View()), now, graphs).Err? ==> r == Err(BoundaryStep(config, old(View()), now, graphs).error)
      ensures BoundaryStep(config, old(View()), now, graphs).Ok? ==>
        r.Ok? && View() == BoundaryStep(config, old(View()), now, graphs).value
    {
      hide BaseBoundary, MeasuredRows, Advance;
      if !EdgeDue() {
        return Ok(());
      }
      if pending != map[] {
        return Err(UndrainedBoundary);
      }
      var base := BaseEdge(now, graphs);
      if base.Err? {
        return Err(base.error);
      }
      if result.Some? {
        var selected := MeasuredRows(records);
        if |selected| != config.targetSteps || selected == [] || !(forall i :: 0 <= i < |selected| ==> selected[i].completed) {
          return Err(IncompleteWork);
        }
        result := Some(result.value.(
          contextsStart := selected[0].contextLengths,
          contextsEnd := Advance(selected[|selected| - 1].contextLengths, 1),
          completedSteps := |selected|));
      }
      return Ok(());
    }

    method Boundary(now: real, graphs: GraphStats) returns (r: Result<(), WindowError>)
      requires Valid()
      modifies this
      ensures BoundaryStep(config, old(View()), now, graphs).Err? ==> r == Err(BoundaryStep(config, old(View()), now, graphs).error)
      ensures BoundaryStep(config, old(View()), now, graphs).Ok? ==>
        && r.Ok? && View() == BoundaryStep(config, old(View()), now, graphs).value && !EdgeDue()
        && edges == (if old(EdgeDue()) then old(edges) + [Edge(|history|, now, graphs)] else old(edges))
        && events == old(events) + [Event.Boundary(now, graphs)] && Valid()
      ensures r.Err? ==> events == old(events) && Run(config, events + [Event.Boundary(now, graphs)]) == Err(r.error)
      ensures r != Err(IncompleteWork)
      ensures history == old(history)
    {
      hide Inv, BoundaryStep, Records, Run;
      BoundaryKeeps(config, View(), history, now, graphs);
      RecordStep(config, events, Log(), Event.Boundary(now, graphs));
      ghost var due := EdgeDue();
      r := CloseEdge(now, graphs);
      if r.Ok? {
        edges := if due then edges + [Edge(|history|, now, graphs)] else edges;
        events := events + [Event.Boundary(now, graphs)];
      }
    }
  }

  /** A result that stands in a valid window is backed by the calls it records. */
  lemma LoggedResult(w: PipelinedDecodeWindow)
    requires w.Valid() && w.result.Some?
    ensures Vouches(w.config, w.View(), w.history) && Accounts(w.config, w.Log())
  {
    hide Inv, Vouches, Accounts, Run;
    assert Positive(w.config) by { InvPositive(w.config, w.View(), w.history); }
    ResultVouches(w.config, w.View(), w.history);
    ResultAccounts(w.config, w.events);
  }
}

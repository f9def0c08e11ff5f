/**
 The decode-measurement window: a state machine driven by `submit`, `complete`
 and `boundary` calls in any interleaving.  This module gives the transition
 functions; an exception ends the run.
 */
module DecodeWindow {
  import opened Outcomes
  import opened Sorting

  datatype Config = Config(concurrency: int, targetSteps: int, warmupSteps: int)

  predicate Positive(c: Config) {
    c.concurrency >= 1 && c.targetSteps >= 1 && c.warmupSteps >= 1
  }

  datatype WindowError =
    | NonPositiveConfig
    | UndrainedBoundary   // boundary() met in-flight work
    | CrossedEdge         // submit() before a due boundary
    | Preempted
    | MissingContexts
    | Contaminated        // prefill, admission, turnover or partial batch inside the window
    | ContextJump
    | UnknownTicket
    | TokenMismatch
    | GraphViolation
    | BadStageTime
    | IncompleteWork

  // ---------- execution-graph counters and stage throughput ----------

  datatype Counters = Counters(captures: int, replays: int, eagerDecodes: int)

  /** One legacy counter set, or one set per participating rank. */
  datatype GraphStats = Legacy(counters: Counters) | Ranks(ranks: seq<Counters>)

  function CounterDelta(before: Counters, after: Counters): Counters {
    Counters(after.captures - before.captures, after.replays - before.replays, after.eagerDecodes - before.eagerDecodes)
  }

  function CounterDeltas(before: seq<Counters>, after: seq<Counters>): (r: seq<Counters>)
    requires |before| == |after|
    ensures |r| == |before| && forall i :: 0 <= i < |r| ==> r[i] == CounterDelta(before[i], after[i])
  {
    seq(|before|, i requires 0 <= i < |before| => CounterDelta(before[i], after[i]))
  }

  /** Exactly one graph replay per step and nothing else. */
  predicate Replayed(delta: Counters, steps: int) {
    delta == Counters(0, steps, 0)
  }

  function GraphDelta(before: GraphStats, after: GraphStats, steps: int): (r: Result<GraphStats, WindowError>)
    ensures r.Err? ==> r.error == GraphViolation
  {
    match (before, after)
    case (Legacy(a), Legacy(b)) =>
      var delta := CounterDelta(a, b);
      if Replayed(delta, steps) then Ok(Legacy(delta)) else Err(GraphViolation)
    case (Ranks(a), Ranks(b)) =>
      if a == [] || |a| != |b| then Err(GraphViolation)
      else
        var deltas := CounterDeltas(a, b);
        if forall i :: 0 <= i < |deltas| ==> Replayed(deltas[i], steps) then Ok(Ranks(deltas)) else Err(GraphViolation)
    case _ => Err(GraphViolation)
  }

  function StageThroughput(tokens: int, elapsed: real): (r: Result<Option<real>, WindowError>)
    ensures r.Err? ==> r.error == BadStageTime
    ensures r.Ok? <==> tokens >= 0 && elapsed >= 0.0 && (tokens > 0 ==> elapsed > 0.0)
    ensures r.Ok? ==> (r.value.None? <==> tokens == 0)
    ensures r.Ok? && r.value.Some? ==> r.value.value * elapsed == tokens as real
  {
    if tokens < 0 || elapsed < 0.0 then Err(BadStageTime)
    else if tokens == 0 then Ok(None)
    else if elapsed <= 0.0 then Err(BadStageTime)
    else Ok(Some(tokens as real / elapsed))
  }

  // ---------- submissions and rows ----------

  datatype Submission = Submission(
    isDecode: bool, requestIds: seq<int>, tokens: int, admissionComplete: bool,
    contextLengths: seq<int>, preemptions: int)

  datatype Row = Row(
    ticket: nat, pureDecode: bool, requestIds: seq<int>, contextLengths: seq<int>,
    tokens: int, measured: bool, completed: bool, completedDecodeTokens: Option<int>)

  function SortedIds(ids: seq<int>): seq<int> { Sort(IntLe, ids) }

  predicate Eligible(c: Config, s: Submission) {
    && s.isDecode && s.admissionComplete
    && |s.requestIds| == c.concurrency
    && |SetOf(s.requestIds)| == c.concurrency
    && s.tokens == c.concurrency
  }

  predicate HasContexts(s: Submission) {
    && |s.contextLengths| == |s.requestIds|
    && forall i :: 0 <= i < |s.contextLengths| ==> s.contextLengths[i] >= 0
  }

  function Zip(ids: seq<int>, contexts: seq<int>): (r: seq<(int, int)>)
    requires |ids| == |contexts|
    ensures |r| == |ids|
  {
    seq(|ids|, i requires 0 <= i < |ids| => (ids[i], contexts[i]))
  }

  function First(p: (int, int)): int { p.0 }

  function Second(p: (int, int)): int { p.1 }

  /** The (id, context) pairs of a submission in id order. */
  function Pairs(s: Submission): seq<(int, int)>
    requires HasContexts(s)
  {
    Sort(PairLe, Zip(s.requestIds, s.contextLengths))
  }

  function OrderedIds(s: Submission): seq<int>
    requires HasContexts(s)
  {
    Map(First, Pairs(s))
  }

  function OrderedContexts(s: Submission): seq<int>
    requires HasContexts(s)
  {
    Map(Second, Pairs(s))
  }

  function RowOf(s: Submission, ticket: nat, measured: bool): Row
    requires HasContexts(s)
  {
    Row(ticket, s.isDecode, OrderedIds(s), OrderedContexts(s), s.tokens, measured, false, None)
  }

  function Advance(contexts: seq<int>, n: int): (r: seq<int>)
    ensures |r| == |contexts|
  {
    seq(|contexts|, i requires 0 <= i < |contexts| => contexts[i] + n)
  }

  function MeasuredRows(rows: seq<Row>): seq<Row> {
    if rows == [] then []
    else if rows[|rows| - 1].measured then MeasuredRows(rows[..|rows| - 1]) + [rows[|rows| - 1]]
    else MeasuredRows(rows[..|rows| - 1])
  }

  // ---------- window state ----------

  datatype WindowResult = WindowResult(
    concurrency: int, requestIds: seq<int>, discardedSteps: int, decodeSteps: int, decodeTokens: int,
    elapsed: real, throughput: Option<real>, graphDelta: GraphStats, startedAt: real, finishedAt: real,
    contextsStart: seq<int>, contextsEnd: seq<int>, completedSteps: nat)

  /** `pending` maps a ticket to the position of its row in `records`; `syncs` counts device synchronizations. */
  datatype Window = Window(
    ids: Option<seq<int>>, warmed: int, steps: int, tokens: int,
    started: Option<real>, graphBefore: Option<GraphStats>, result: Option<WindowResult>,
    pending: map<nat, nat>, records: seq<Row>, submitted: nat,
    lastMeasured: Option<seq<int>>, syncs: nat)

  function Init(): Window {
    Window(None, 0, 0, 0, None, None, None, map[], [], 0, None, 0)
  }

  predicate NeedsBoundary(c: Config, w: Window) {
    w.result.None? && (
      || (w.started.None? && w.warmed == c.warmupSteps)
      || (w.started.Some? && w.steps == c.targetSteps))
  }

  /** The base class's `observe`. */
  function Observe(c: Config, w: Window, s: Submission): Result<Window, WindowError> {
    if w.result.Some? then Ok(w)
    else
      var ids := Some(SortedIds(s.requestIds));
      if w.started.Some? then
        if !Eligible(c, s) || ids != w.ids then Err(Contaminated)
        else Ok(w.(steps := w.steps + 1, tokens := w.tokens + s.tokens))
      else if Eligible(c, s) then
        Ok(w.(ids := ids, warmed := (if ids != w.ids then 0 else w.warmed) + 1))
      else
        Ok(w.(ids := None, warmed := 0))
  }

  function SubmitStep(c: Config, w: Window, s: Submission): Result<(Window, Option<nat>), WindowError> {
    if w.result.Some? then Ok((w, None))
    else if NeedsBoundary(c, w) then Err(CrossedEdge)
    else if s.preemptions != 0 then Err(Preempted)
    else if !HasContexts(s) then Err(MissingContexts)
    else
      var measured := w.started.Some?;
      match Observe(c, w, s)
      case Err(e) => Err(e)
      case Ok(o) =>
        var row := RowOf(s, w.submitted, measured);
        if measured && w.lastMeasured.Some? && row.contextLengths != Advance(w.lastMeasured.value, 1) then
          Err(ContextJump)
        else
          Ok((o.(lastMeasured := if measured then Some(row.contextLengths) else o.lastMeasured,
                 submitted := w.submitted + 1,
                 pending := w.pending[w.submitted := |w.records|],
                 records := w.records + [row]),
              Some(w.submitted)))
  }

  function CompleteStep(w: Window, ticket: Option<nat>, decodeTokens: Option<int>): Result<Window, WindowError> {
    if ticket.None? then Ok(w)
    else if ticket.value !in w.pending || w.pending[ticket.value] >= |w.records| then Err(UnknownTicket)
    else
      var at := w.pending[ticket.value];
      var row := w.records[at];
      if row.pureDecode && decodeTokens != Some(row.tokens) then Err(TokenMismatch)
      else
        Ok(w.(pending := w.pending - {ticket.value},
              records := w.records[at := row.(completedDecodeTokens := decodeTokens, completed := true)]))
  }

  /** What the base class publishes; the pipelined class adds the contexts. */
  function BaseResult(c: Config, w: Window, elapsed: real, rate: Option<real>, delta: GraphStats, now: real): WindowResult {
    WindowResult(
      c.concurrency, if w.ids.Some? then w.ids.value else [], c.warmupSteps, w.steps, w.tokens,
      elapsed, rate, delta, if w.started.Some? then w.started.value else now, now, [], [], 0)
  }

  /** The base class's `boundary`, reading the clock and the graph counters at the call. */
  function BaseBoundary(c: Config, w: Window, now: real, graphs: GraphStats): (r: Result<Window, WindowError>)
    ensures r.Err? ==> r.error == GraphViolation || r.error == BadStageTime
    ensures r.Ok? ==> r.value.records == w.records && r.value.pending == w.pending
    ensures r.Ok? && !NeedsBoundary(c, w) ==> r.value == w
    ensures r.Ok? && NeedsBoundary(c, w) && w.started.Some? ==> r.value.result.Some?
  {
    if w.result.Some? then Ok(w)
    else if w.started.Some? && w.steps == c.targetSteps then
      if w.graphBefore.None? then Err(GraphViolation)
      else
        match GraphDelta(w.graphBefore.value, graphs, w.steps)
        case Err(e) => Err(e)
        case Ok(delta) =>
          var elapsed := now - w.started.value;
          match StageThroughput(w.tokens, elapsed)
          case Err(e) => Err(e)
          case Ok(rate) =>
            Ok(w.(syncs := w.syncs + 1, result := Some(BaseResult(c, w, elapsed, rate, delta, now))))
    else if w.started.None? && w.warmed == c.warmupSteps then
      Ok(w.(syncs := w.syncs + 1, graphBefore := Some(graphs), started := Some(now)))
    else Ok(w)
  }

  /** Completes a fresh result from the measured rows. */
  function Summarize(c: Config, w: Window): Result<Window, WindowError>
    requires w.result.Some?
  {
    var selected := MeasuredRows(w.records);
    if |selected| != c.targetSteps || selected == [] || !(forall i :: 0 <= i < |selected| ==> selected[i].completed) then
      Err(IncompleteWork)
    else
      Ok(w.(result := Some(w.result.value.(
           contextsStart := selected[0].contextLengths,
           contextsEnd := Advance(selected[|selected| - 1].contextLengths, 1),
           completedSteps := |selected|))))
  }

  function BoundaryStep(c: Config, w: Window, now: real, graphs: GraphStats): Result<Window, WindowError> {
    if !NeedsBoundary(c, w) then Ok(w)
    else if w.pending != map[] then Err(UndrainedBoundary)
    else
      match BaseBoundary(c, w, now, graphs)
      case Err(e) => Err(e)
      case Ok(b) => if b.result.None? then Ok(b) else Summarize(c, b)
  }

  // ---------- runs ----------

  datatype Event =
    | Submit(submission: Submission)
    | Complete(ticket: Option<nat>, decodeTokens: Option<int>)
    | Boundary(now: real, graphs: GraphStats)

  /** A boundary call that acted: how many submissions had been accepted, and what was read. */
  datatype Edge = Edge(at: nat, now: real, graphs: GraphStats)

  /** A window together with the submissions it accepted and the edges it closed so far. */
  datatype Trace = Trace(w: Window, subs: seq<Submission>, edges: seq<Edge>)

  function Step(c: Config, t: Trace, e: Event): Result<Trace, WindowError> {
    match e
    case Submit(s) =>
      (match SubmitStep(c, t.w, s)
       case Err(x) => Err(x)
       case Ok((w, ticket)) => Ok(t.(w := w, subs := if ticket.Some? then t.subs + [s] else t.subs)))
    case Complete(ticket, n) =>
      (match CompleteStep(t.w, ticket, n)
       case Err(x) => Err(x)
       case Ok(w) => Ok(t.(w := w)))
    case Boundary(now, graphs) =>
      (match BoundaryStep(c, t.w, now, graphs)
       case Err(x) => Err(x)
       case Ok(w) => Ok(t.(w := w, edges := if NeedsBoundary(c, t.w) then t.edges + [Edge(|t.subs|, now, graphs)] else t.edges)))
  }

  /** The calls of `events` in order; the first exception ends the run. */
  function Run(c: Config, events: seq<Event>): Result<Trace, WindowError> {
    if events == [] then Ok(Trace(Init(), [], []))
    else
      match Run(c, events[..|events| - 1])
      case Err(e) => Err(e)
      case Ok(t) => Step(c, t, events[|events| - 1])
  }
}

/** The native adapter: every step is submitted and completed before the next begins. */
module NativeLoop {
  import opened Outcomes
  import opened Sorting
  import opened DecodeWindow
  import opened WindowRuns
  import opened PipelinedWindow
  import opened Flights
  import opened Driving

  /** One engine step: a negative token count is a decode step. */
  datatype Turn = Turn(
    tokenCount: int, ids: seq<int>, contexts: seq<int>, admitted: bool, preemptions: int, published: int,
    strict: bool, now: real, graphs: GraphStats)

  function SubmissionOf(t: Turn): Submission {
    Submission(t.tokenCount < 0, t.ids, if t.tokenCount < 0 then -t.tokenCount else t.tokenCount, t.admitted, t.contexts, t.preemptions)
  }

  function Actual(t: Turn): Option<int> { if t.tokenCount < 0 then Some(t.published) else None }

  /** A decode step that does not publish as many tokens as it counted. */
  ghost predicate Miscounts(t: Turn) { t.tokenCount < 0 && t.published != -t.tokenCount }

  /** The submission carries the step's own requests, contexts and token count. */
  ghost predicate Tells(t: Turn, s: Submission) {
    && (s.isDecode <==> t.tokenCount < 0) && (s.tokens == t.tokenCount || s.tokens == -t.tokenCount) && s.tokens >= 0
    && s.requestIds == t.ids && s.contextLengths == t.contexts && s.admissionComplete == t.admitted && s.preemptions == t.preemptions
  }

  lemma SubmissionTells(t: Turn)
    ensures Tells(t, SubmissionOf(t))
  {
  }

  /** Every turn offers its own step. */
  function Offer(t: Turn): seq<Submission> { [SubmissionOf(t)] }

  function ReadingOf(t: Turn): Reading { Reading(t.now, t.graphs) }

  /** Why a turn may end the run: a preemption under strict batching, a miscount, or an edge or step that the window refuses. */
  ghost predicate Blames(c: Config, events: seq<Event>, t: Turn, e: AdapterError) {
    match e
    case SchedulerPreempted => t.strict && t.preemptions != 0
    case FromWindow(x) => if x == TokenMismatch then Miscounts(t) else Refuses(c, events, Offer(t), ReadingOf(t), x)
    case _ => false
  }

  /** The three calls of a turn. */
  ghost function CallsOf(t: Turn, ticket: Option<nat>): seq<Event> {
    [Event.Boundary(t.now, t.graphs), Event.Submit(SubmissionOf(t)),
     Event.Complete(ticket, if t.tokenCount < 0 then Some(t.published) else None)]
  }

  /** One loop iteration: an edge if one is due, then the step, submitted and completed; nothing stays in flight. */
  method Iterate(window: PipelinedDecodeWindow, turn: Turn) returns (r: Result<(), AdapterError>)
    requires window.Valid() && window.pending == map[]
    modifies window
    ensures r.Ok? ==> window.Valid() && window.pending == map[]
    ensures r.Ok? ==> Turned(old(window.Log()), window.Log(), Offer(turn), ReadingOf(turn))
    ensures r.Ok? ==>
      window.events == old(window.events) + CallsOf(turn, if window.result.Some? then None else Some(old(|window.history|)))
    ensures r.Ok? && window.result.None? ==> !Miscounts(turn)
    ensures r.Err? ==> !ProtocolFault(r.error) && Blames(window.config, window.events, turn, r.error)
  {
    hide Inv, Records, Run, SubmissionOf, BoundaryStep, Turned;
    EdgeErrors(window.config, window.View(), window.history, turn.now, turn.graphs);
    EdgeIsNoMismatch(window.config, window.View(), turn.now, turn.graphs);
    BoundaryPending(window.config, window.View(), turn.now, turn.graphs);
    ghost var before := window.Log();
    var edge := window.Boundary(turn.now, turn.graphs);
    if edge.Err? {
      return Err(FromWindow(edge.error));
    }
    BoundaryTurns(window.config, before, window.Log(), ReadingOf(turn));
    if turn.strict && turn.preemptions != 0 {
      return Err(SchedulerPreempted);
    }
    ghost var closed := window.Log();
    r := SubmitAndComplete(window, SubmissionOf(turn), Actual(turn));
    StepSubmits(turn);
    if r.Ok? {
      TurnedThen(before, closed, window.Log(), Offer(turn), ReadingOf(turn));
    }
  }

  lemma EdgeIsNoMismatch(c: Config, w: Window, now: real, graphs: GraphStats)
    ensures BoundaryStep(c, w, now, graphs) != Err(TokenMismatch)
  {
    hide BaseBoundary, MeasuredRows, Advance;
  }

  lemma StepSubmits(t: Turn)
    ensures SubmissionOf(t).isDecode <==> t.tokenCount < 0
    ensures t.tokenCount < 0 ==> SubmissionOf(t).tokens == -t.tokenCount
  {
  }

  method SubmitAndComplete(window: PipelinedDecodeWindow, s: Submission, actual: Option<int>) returns (r: Result<(), AdapterError>)
    requires window.Valid() && window.pending == map[] && !window.EdgeDue()
    modifies window
    ensures r.Ok? ==> window.Valid() && window.pending == map[]
    ensures r.Ok? ==> window.history == old(window.history) + (if window.result.Some? then [] else [s])
    ensures r.Ok? ==>
      var ticket := if window.result.Some? then None else Some(old(|window.history|));
      window.events == old(window.events) + [Event.Submit(s), Event.Complete(ticket, actual)]
    ensures r.Ok? && window.result.None? && s.isDecode ==> actual == Some(s.tokens)
    ensures window.edges == old(window.edges) && window.result == old(window.result)
    ensures r.Err? ==> !ProtocolFault(r.error) && r.error.FromWindow?
    ensures r.Err? ==>
      if r.error.error == TokenMismatch then s.isDecode && actual != Some(s.tokens)
      else RefusesOffer(window.config, window.events, [s], r.error.error)
  {
    hide Inv, SubmitStep, CompleteStep, Records, Run;
    SubmitOutcome(window.config, window.View(), window.history, s);
    ghost var before := window.history;
    var submitted := window.Submit(s);
    if submitted.Err? {
      return Err(FromWindow(submitted.error));
    }
    ghost var pending := window.pending;
    KnownTicket(window.config, window.View(), window.history, submitted.value, actual);
    CompletedPending(window.View(), submitted.value, actual);
    var done := window.Complete(submitted.value, actual);
    if done.Err? {
      return Err(FromWindow(done.error));
    }
    assert window.pending == map[];
    return Ok(());
  }

  lemma CompletedPending(w: Window, ticket: Option<nat>, n: Option<int>)
    ensures CompleteStep(w, ticket, n).Ok? ==>
      CompleteStep(w, ticket, n).value.pending == if ticket.Some? then w.pending - {ticket.value} else w.pending
  {
  }

  /** All turns, then one more edge. */
  ghost predicate Completed(t: Trace, t': Trace, turns: seq<Turn>, last: Reading) {
    Followed(t, t', Map(Offer, turns) + [[]], Map(ReadingOf, turns) + [last])
  }

  /** Submission k is the step of its turn, which did not miscount. */
  ghost predicate IsStep(turns: seq<Turn>, subs: seq<Submission>, from: nat, k: nat)
    requires from <= k < |subs| <= from + |turns|
  {
    Tells(turns[k - from], subs[k]) && !Miscounts(turns[k - from])
  }

  /** The submissions from index `from` on are the turns' own steps in order, none of which miscounts. */
  ghost predicate StepsOf(turns: seq<Turn>, subs: seq<Submission>, from: nat) {
    from <= |subs| <= from + |turns| && forall k: nat :: from <= k < |subs| ==> IsStep(turns, subs, from, k)
  }

  lemma StepsNext(turns: seq<Turn>, i: nat, subs: seq<Submission>, subs': seq<Submission>, from: nat, stopped: bool)
    requires i < |turns| && StepsOf(turns[..i], subs, from) && (!stopped ==> |subs| == from + i)
    requires subs' == subs + (if stopped then [] else Offer(turns[i])) && (!stopped ==> !Miscounts(turns[i]))
    ensures StepsOf(turns[..i + 1], subs', from)
  {
    hide SubmissionOf, Miscounts, Tells;
    SubmissionTells(turns[i]);
    var before, now := turns[..i], turns[..i + 1];
    forall k: nat | from <= k < |subs'| ensures IsStep(now, subs', from, k) {
      if k < |subs| {
        assert IsStep(before, subs, from, k);
        assert subs'[k] == subs[k] && now[k - from] == before[k - from];
      }
    }
  }

  /** Submission k is a decode step that published one token for each of the requests. */
  ghost predicate PublishedFully(c: Config, turns: seq<Turn>, subs: seq<Submission>, from: nat, k: nat)
    requires from <= k < |subs| <= from + |turns|
  {
    subs[k].isDecode && turns[k - from].published == c.concurrency
  }

  /** So did every measured step of these turns. */
  ghost predicate FullyPublished(c: Config, turns: seq<Turn>, subs: seq<Submission>, from: nat)
    requires |subs| <= from + |turns|
  {
    forall k: nat :: from <= k < |subs| && |subs| - c.targetSteps <= k ==> PublishedFully(c, turns, subs, from, k)
  }

  lemma MeasuredSteps(c: Config, w: Window, subs: seq<Submission>, turns: seq<Turn>, from: nat)
    requires Vouches(c, w, subs) && StepsOf(turns, subs, from)
    ensures |subs| <= from + |turns| && FullyPublished(c, turns, subs, from)
  {
    hide TokensApart, HasContexts;
    forall k: nat | from <= k < |subs| && |subs| - c.targetSteps <= k ensures PublishedFully(c, turns, subs, from, k) {
      assert IsStep(turns, subs, from, k);
      assert subs[k].isDecode && subs[k].tokens == c.concurrency;
    }
  }

  /**
   The whole measurement.  The steps are submitted in order until the readings that close the
   second edge; a reported result vouches for exactly those steps, each measured one of which
   published one token for each of the `concurrency` requests, and accounts for those readings.
   No protocol fault is possible, and the run fails only when a turn or the last readings give
   cause, or when every step was submitted and no result came of it.
   */
  method Measure(window: PipelinedDecodeWindow, turns: seq<Turn>, endNow: real, endGraphs: GraphStats)
    returns (r: Result<WindowResult, AdapterError>)
    requires window.Valid() && window.pending == map[]
    modifies window
    ensures r.Ok? ==> window.Valid() && window.result == Some(r.value) && Vouches(window.config, window.View(), window.history)
    ensures r.Ok? ==> Accounts(window.config, window.Log())
    ensures r.Ok? ==> StepsOf(turns, window.history, old(|window.history|))
    ensures r.Ok? ==>
      |window.history| <= old(|window.history|) + |turns| && FullyPublished(window.config, turns, window.history, old(|window.history|))
    ensures r.Ok? || r == Err(NoResult) ==> Completed(old(window.Log()), window.Log(), turns, Reading(endNow, endGraphs))
    ensures r.Err? ==> !ProtocolFault(r.error)
    ensures r.Err? ==>
      || (r.error == NoResult && window.result.None?)
      || (exists i :: 0 <= i < |turns| && Blames(window.config, window.events, turns[i], r.error))
      || (r.error.FromWindow? && RefusesEdge(window.config, window.events, Reading(endNow, endGraphs), r.error.error))
  {
    hide Inv, Vouches, Accounts, Followed, Turned, Refuses, Run, BoundaryStep, Records, StepsOf, Miscounts, FullyPublished;
    var i := 0;
    FollowNothing(window.Log());
    NoSteps(window.history);
    while i < |turns|
      invariant 0 <= i <= |turns| && window.Valid() && window.pending == map[]
      invariant Followed(old(window.Log()), window.Log(), Map(Offer, turns[..i]), Map(ReadingOf, turns[..i]))
      invariant StepsOf(turns[..i], window.history, old(|window.history|))
      invariant window.result.None? ==> |window.history| == old(|window.history|) + i
    {
      ghost var before := window.Log();
      var done := Iterate(window, turns[i]);
      if done.Err? {
        return Err(done.error);
      }
      TurnSubmits(before, window.Log(), Offer(turns[i]), ReadingOf(turns[i]));
      assert turns[..i + 1] == turns[..i] + [turns[i]];
      MapSnoc(Offer, turns[..i], turns[i]);
      MapSnoc(ReadingOf, turns[..i], turns[i]);
      FollowNext(old(window.Log()), before, window.Log(), Map(Offer, turns[..i]), Map(ReadingOf, turns[..i]),
                 Offer(turns[i]), ReadingOf(turns[i]));
      StepsNext(turns, i, before.subs, window.history, old(|window.history|), window.result.Some?);
      i := i + 1;
    }
    assert turns[..i] == turns;
    ghost var before := window.Log();
    EdgeErrors(window.config, window.View(), window.history, endNow, endGraphs);
    BoundaryPending(window.config, window.View(), endNow, endGraphs);
    var edge := window.Boundary(endNow, endGraphs);
    if edge.Err? {
      return Err(FromWindow(edge.error));
    }
    BoundaryTurns(window.config, before, window.Log(), Reading(endNow, endGraphs));
    FollowNext(old(window.Log()), before, window.Log(), Map(Offer, turns), Map(ReadingOf, turns), [], Reading(endNow, endGraphs));
    if window.result.None? {
      return Err(NoResult);
    }
    LoggedResult(window);
    MeasuredSteps(window.config, window.View(), window.history, turns, old(|window.history|));
    return Ok(window.result.value);
  }

  lemma NoSteps(subs: seq<Submission>)
    ensures StepsOf([], subs, |subs|)
  {
  }

  lemma TurnSubmits(t: Trace, t': Trace, offer: seq<Submission>, reading: Reading)
    requires Turned(t, t', offer, reading)
    ensures t'.subs == t.subs + (if t'.w.result.Some? then [] else offer)
    ensures t.w.result.Some? ==> t'.w.result.Some?
  {
  }
}

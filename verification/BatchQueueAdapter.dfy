/**
 The vLLM adapter: an engine whose step schedules at most one batch into a queue
 and pops at most one result from its far end.  At an edge the adapter makes the
 scheduler report no requests until the queue is empty.
 */
module BatchQueueAdapter {
  import opened Outcomes
  import opened Sorting
  import opened DecodeWindow
  import opened WindowRuns
  import opened PipelinedWindow
  import opened Flights
  import opened Driving

  /** One scheduled request: its progress before scheduling and the tokens scheduled for it. */
  datatype Share = Share(id: int, computed: int, prompt: int, scheduled: int)

  datatype Plan = Plan(shares: seq<Share>, preempted: nat, sampled: int)

  /**
   The engine's choices in one loop iteration: whether requests are unfinished, what it would
   schedule, whether the queue is full enough to wait for a result after scheduling.
   */
  datatype Turn = Turn(unfinished: bool, plan: Option<Plan>, awaits: bool, now: real, graphs: GraphStats)

  datatype Status = Running | Finished(result: WindowResult)

  predicate Pure(p: Plan) {
    p.shares != [] && forall i :: 0 <= i < |p.shares| ==> p.shares[i].computed >= p.shares[i].prompt
  }

  function TotalScheduled(shares: seq<Share>): int {
    if shares == [] then 0 else TotalScheduled(shares[..|shares| - 1]) + shares[|shares| - 1].scheduled
  }

  function SubmissionOf(c: Config, p: Plan): Submission {
    Submission(
      Pure(p),
      seq(|p.shares|, i requires 0 <= i < |p.shares| => p.shares[i].id),
      TotalScheduled(p.shares),
      |p.shares| == c.concurrency && Pure(p),
      seq(|p.shares|, i requires 0 <= i < |p.shares| => p.shares[i].computed + p.shares[i].scheduled),
      0)
  }

  /** Every scheduled request is past its prompt, and there is one. */
  ghost predicate Decodes(p: Plan) {
    |p.shares| > 0 && forall i :: 0 <= i < |p.shares| ==> p.shares[i].prompt <= p.shares[i].computed
  }

  /** The submission carries the plan's own requests, tokens, and the contexts that scheduling leads to. */
  ghost predicate Tells(c: Config, p: Plan, s: Submission) {
    && (s.isDecode <==> Decodes(p)) && |s.requestIds| == |s.contextLengths| == |p.shares| && s.preemptions == 0
    && (forall i :: 0 <= i < |p.shares| ==>
          s.requestIds[i] == p.shares[i].id && s.contextLengths[i] == p.shares[i].computed + p.shares[i].scheduled)
    && s.tokens == TotalScheduled(p.shares)
    && (s.admissionComplete <==> Decodes(p) && |p.shares| == c.concurrency)
  }

  /** The greatest number of requests decoded at once, after one more plan. */
  ghost function Peaked(before: nat, p: Plan): nat {
    if Decodes(p) && |p.shares| > before then |p.shares| else before
  }

  lemma PureDecodes(p: Plan)
    ensures Pure(p) <==> Decodes(p)
  {
  }

  lemma SubmissionTells(c: Config, p: Plan)
    ensures Tells(c, p, SubmissionOf(c, p))
  {
    hide TotalScheduled;
  }

  /** The total of several lists is that of the parts, down to the single shares. */
  lemma {:induction false} TotalOfParts(a: seq<Share>, b: seq<Share>)
    ensures TotalScheduled(a + b) == TotalScheduled(a) + TotalScheduled(b)
    ensures TotalScheduled([]) == 0 && forall x :: TotalScheduled([x]) == x.scheduled
  {
    forall x: Share ensures TotalScheduled([x]) == x.scheduled {
      assert [x][..0] == [];
    }
    if b == [] {
      assert a + b == a;
    } else {
      var front := b[..|b| - 1];
      TotalOfParts(a, front);
      assert (a + b)[..|a + b| - 1] == a + front;
    }
  }

  function Submitting(c: Config): Plan -> Submission { (p: Plan) => SubmissionOf(c, p) }

  lemma SubmittingIs(c: Config, p: Plan)
    ensures Submitting(c)(p) == SubmissionOf(c, p) && SubmissionOf(c, p).isDecode == Pure(p)
  {
  }

  function Sampled(p: Plan): int { p.sampled }

  /** A decode plan that does not sample one token per scheduled token. */
  ghost predicate Miscounts(p: Plan) { Decodes(p) && p.sampled != TotalScheduled(p.shares) }

  /** What a turn offers to the window unless it drains, and the readings at its edge. */
  function Offer(c: Config, t: Turn): seq<Submission> {
    if t.plan.Some? then [SubmissionOf(c, t.plan.value)] else []
  }

  function ReadingOf(t: Turn): Reading { Reading(t.now, t.graphs) }

  /** The decode tokens reported for an updated batch. */
  function Actual(t: Ticket, p: Plan): Option<int> {
    if t.pure && t.id.Some? then Some(p.sampled) else None
  }

  /** Why scheduling a plan may fail: a preemption, or a submission that the window refuses. */
  ghost predicate Declines(c: Config, events: seq<Event>, p: Plan, e: AdapterError) {
    match e
    case SchedulerPreempted => p.preempted != 0
    case FromWindow(x) => RefusesOffer(c, events, [SubmissionOf(c, p)], x)
    case _ => false
  }

  /** Why a turn may end the run: a preemption, or an edge or a submission of its own that the window refuses. */
  ghost predicate Blames(c: Config, events: seq<Event>, t: Turn, e: AdapterError) {
    match e
    case SchedulerPreempted => t.plan.Some? && t.plan.value.preempted != 0
    case FromWindow(x) => Refuses(c, events, Offer(c, t), ReadingOf(t), x)
    case _ => false
  }

  /** A plan in flight, or one that a turn scheduled, did not sample one token per scheduled token. */
  ghost predicate SomeMiscount(flights: seq<Flight<Plan>>, turns: seq<Turn>) {
    || (exists f :: f in flights && Miscounts(f.batch))
    || (exists i :: 0 <= i < |turns| && turns[i].plan.Some? && Miscounts(turns[i].plan.value))
  }

  /** A turn, the readings at the last edge, or a plan that miscounts gives cause for the error. */
  ghost predicate Causes(c: Config, events: seq<Event>, flights: seq<Flight<Plan>>, turns: seq<Turn>, last: Reading, e: AdapterError) {
    || (exists i :: 0 <= i < |turns| && Blames(c, events, turns[i], e))
    || (e.FromWindow? && RefusesEdge(c, events, last, e.error))
    || (e == FromWindow(TokenMismatch) && SomeMiscount(flights, turns))
  }

  /** The peak over the turns that scheduled: those with an offer. */
  ghost function PeakOver(before: nat, turns: seq<Turn>, offers: seq<seq<Submission>>): nat
    requires |offers| == |turns|
  {
    if turns == [] then before
    else
      var n := |turns| - 1;
      var peak := PeakOver(before, turns[..n], offers[..n]);
      if offers[n] == [] || turns[n].plan.None? then peak else Peaked(peak, turns[n].plan.value)
  }

  lemma PeakOverNext(before: nat, turns: seq<Turn>, offers: seq<seq<Submission>>, turn: Turn, offer: seq<Submission>)
    requires |offers| == |turns|
    ensures var peak := PeakOver(before, turns, offers);
      PeakOver(before, turns + [turn], offers + [offer]) == if offer == [] || turn.plan.None? then peak else Peaked(peak, turn.plan.value)
  {
    assert (turns + [turn])[..|turns|] == turns && (offers + [offer])[..|offers|] == offers;
  }

  /** The peak is the size of the largest decoding plan scheduled, or what it was. */
  lemma {:induction false} PeakIsGreatest(before: nat, turns: seq<Turn>, offers: seq<seq<Submission>>, i: nat)
    requires |offers| == |turns|
    ensures PeakOver(before, turns, offers) >= before
    ensures i < |turns| && offers[i] != [] && turns[i].plan.Some? && Decodes(turns[i].plan.value) ==>
      PeakOver(before, turns, offers) >= |turns[i].plan.value.shares|
    ensures PeakOver(before, turns, offers) == before
      || exists k :: 0 <= k < |turns| && offers[k] != [] && turns[k].plan.Some? && Decodes(turns[k].plan.value)
           && |turns[k].plan.value.shares| == PeakOver(before, turns, offers)
  {
    hide Decodes;
    if turns != [] {
      var n := |turns| - 1;
      PeakIsGreatest(before, turns[..n], offers[..n], i);
    }
  }

  // ---------- which turns scheduled ----------

  ghost predicate SomeTurns(turns: seq<Turn>, p: Plan) {
    exists t :: t in turns && t.plan == Some(p)
  }

  /** Every plan from index `from` on was scheduled by a turn. */
  ghost predicate ScheduledBy(turns: seq<Turn>, plans: seq<Plan>, from: nat) {
    from <= |plans| && forall k :: from <= k < |plans| ==> SomeTurns(turns, plans[k])
  }

  lemma ScheduledByNext(turns: seq<Turn>, turn: Turn, plans: seq<Plan>, plans': seq<Plan>, from: nat)
    requires ScheduledBy(turns, plans, from) && plans <= plans'
    requires forall k :: |plans| <= k < |plans'| ==> turn.plan == Some(plans'[k])
    ensures ScheduledBy(turns + [turn], plans', from)
  {
    assert forall t :: t in turns ==> t in turns + [turn];
    forall k | from <= k < |plans'| ensures SomeTurns(turns + [turn], plans'[k]) {
      if k < |plans| {
        assert plans'[k] == plans[k] && SomeTurns(turns, plans[k]);
      } else {
        assert turn in turns + [turn];
      }
    }
  }

  lemma ScheduledByMore(turns: seq<Turn>, i: nat, plans: seq<Plan>, from: nat)
    requires i <= |turns| && ScheduledBy(turns[..i], plans, from)
    ensures ScheduledBy(turns, plans, from)
  {
    forall k | from <= k < |plans| ensures SomeTurns(turns, plans[k]) {
      assert SomeTurns(turns[..i], plans[k]);
    }
  }

  /** After n submissions an edge was closed, or one is due now. */
  ghost predicate AtEdge(c: Config, t: Trace, t': Trace, n: nat) {
    || (NeedsBoundary(c, t'.w) && |t'.subs| == |t.subs| + n)
    || (exists e :: |t.edges| <= e < |t'.edges| && t'.edges[e].at == |t.subs| + n)
  }

  /** A turn offers its plan, or it drains, which happens at an edge only. */
  ghost predicate Admissible(c: Config, t: Trace, t': Trace, turns: seq<Turn>, offers: seq<seq<Submission>>) {
    && |offers| <= |turns|
    && forall i :: 0 <= i < |offers| ==>
         offers[i] == Offer(c, turns[i]) || (offers[i] == [] && AtEdge(c, t, t', |Concat(offers[..i])|))
  }

  /** The plans of these turns were submitted in order, but for the turns that drained. */
  ghost predicate Scheduled(c: Config, t: Trace, t': Trace, turns: seq<Turn>, offers: seq<seq<Submission>>) {
    |offers| == |turns| && Admissible(c, t, t', turns, offers) && Followed(t, t', offers, Map(ReadingOf, turns))
  }

  /** The same, and then one more edge with the last readings. */
  ghost predicate Completed(c: Config, t: Trace, t': Trace, turns: seq<Turn>, last: Reading, offers: seq<seq<Submission>>) {
    |offers| == |turns| && Admissible(c, t, t', turns, offers) && Followed(t, t', offers + [[]], Map(ReadingOf, turns) + [last])
  }

  /** The measurement ended before turn `ran`, which found no request unfinished. */
  ghost predicate Ended(c: Config, t: Trace, t': Trace, turns: seq<Turn>, ran: nat, last: Reading, offers: seq<seq<Submission>>, before: nat, peak: nat) {
    && ran < |turns| && !turns[ran].unfinished && |offers| == ran && peak == PeakOver(before, turns[..ran], offers)
    && Completed(c, t, t', turns[..ran], last, offers)
  }

  /** A due edge is closed, or it stays due and nothing is submitted. */
  ghost predicate Waits(c: Config, m: Trace, t': Trace) {
    NeedsBoundary(c, m.w) ==>
      || (t'.edges == m.edges && t'.subs == m.subs && NeedsBoundary(c, t'.w))
      || (|t'.edges| == |m.edges| + 1 && t'.edges[|m.edges|].at == |m.subs|)
  }

  lemma StaysAtEdge(c: Config, t: Trace, m: Trace, t': Trace, n: nat)
    requires AtEdge(c, t, m, n) && t.edges <= m.edges <= t'.edges && Waits(c, m, t')
    ensures AtEdge(c, t, t', n)
  {
    if exists e :: |t.edges| <= e < |m.edges| && m.edges[e].at == |t.subs| + n {
      var e :| |t.edges| <= e < |m.edges| && m.edges[e].at == |t.subs| + n;
      assert t'.edges[e] == m.edges[e];
    }
  }

  lemma AdmissibleKeeps(c: Config, t: Trace, m: Trace, t': Trace, turns: seq<Turn>, offers: seq<seq<Submission>>)
    requires Admissible(c, t, m, turns, offers) && t.edges <= m.edges <= t'.edges && Waits(c, m, t')
    ensures Admissible(c, t, t', turns, offers)
  {
    hide AtEdge, Offer, Concat, Waits;
    forall i | 0 <= i < |offers| && offers[i] != Offer(c, turns[i]) ensures AtEdge(c, t, t', |Concat(offers[..i])|) {
      StaysAtEdge(c, t, m, t', |Concat(offers[..i])|);
    }
  }

  lemma ScheduledNext(c: Config, t: Trace, m: Trace, t': Trace, turns: seq<Turn>, offers: seq<seq<Submission>>, turn: Turn, offer: seq<Submission>)
    requires Scheduled(c, t, m, turns, offers) && Turned(m, t', offer, ReadingOf(turn)) && Waits(c, m, t')
    requires offer == Offer(c, turn) || (offer == [] && NeedsBoundary(c, m.w) && NeedsBoundary(c, t'.w))
    ensures Scheduled(c, t, t', turns + [turn], offers + [offer])
  {
    hide Offer, Concat, Followed, AtEdge;
    FollowNext(t, m, t', offers, Map(ReadingOf, turns), offer, ReadingOf(turn));
    MapSnoc(ReadingOf, turns, turn);
    FollowedGrows(t, m, t', offers, Map(ReadingOf, turns), offer, ReadingOf(turn));
    AdmissibleKeeps(c, t, m, t', turns, offers);
    var os, n := offers + [offer], |offers|;
    forall i | 0 <= i < |os|
      ensures os[i] == Offer(c, (turns + [turn])[i]) || (os[i] == [] && AtEdge(c, t, t', |Concat(os[..i])|))
    {
      assert os[..i] == offers[..i];
      if i == n && offer != Offer(c, turn) {
        DrainsAtEdge(c, t, m, t', offers, Map(ReadingOf, turns), offer, ReadingOf(turn));
        assert offers[..n] == offers;
      }
    }
  }

  lemma FollowedGrows(t: Trace, m: Trace, t': Trace, offers: seq<seq<Submission>>, readings: seq<Reading>, offer: seq<Submission>, reading: Reading)
    requires Followed(t, m, offers, readings) && Turned(m, t', offer, reading)
    ensures t.edges <= m.edges <= t'.edges
  {
  }

  lemma DrainsAtEdge(c: Config, t: Trace, m: Trace, t': Trace, offers: seq<seq<Submission>>, readings: seq<Reading>,
                     offer: seq<Submission>, reading: Reading)
    requires Followed(t, m, offers, readings) && Turned(m, t', offer, reading)
    requires offer == [] && NeedsBoundary(c, m.w) && NeedsBoundary(c, t'.w)
    ensures AtEdge(c, t, t', |Concat(offers)|)
  {
    assert offers[..|offers|] == offers;
  }

  lemma CompletedNext(c: Config, t: Trace, m: Trace, t': Trace, turns: seq<Turn>, offers: seq<seq<Submission>>, last: Reading)
    requires Scheduled(c, t, m, turns, offers) && Turned(m, t', [], last) && Waits(c, m, t')
    ensures Completed(c, t, t', turns, last, offers)
  {
    hide Offer, Concat, Followed, AtEdge, Admissible;
    FollowNext(t, m, t', offers, Map(ReadingOf, turns), [], last);
    FollowedGrows(t, m, t', offers, Map(ReadingOf, turns), [], last);
    AdmissibleKeeps(c, t, m, t', turns, offers);
  }

  class Adapter {
    const window: PipelinedDecodeWindow
    var queue: seq<Flight<Plan>>      // newest first
    var tickets: map<nat, Ticket>
    var nextId: nat
    var draining: bool
    var peak: nat
    ghost var plans: seq<Plan>        // the plan behind every accepted submission

    ghost predicate Books(flights: seq<Flight<Plan>>)
      reads this`tickets, this`nextId, this`plans, window
    {
      && window.Valid()
      && Tallied(Submitting(window.config), Sampled, window.history, window.pending, tickets, nextId, flights, plans)
    }

    constructor (w: PipelinedDecodeWindow)
      requires w.Valid() && w.Log() == Trace(Init(), [], [])
      ensures window == w && Books(queue) && queue == [] && plans == [] && peak == 0
    {
      window := w;
      queue, tickets, nextId, draining, peak, plans := [], map[], 0, false, 0, [];
      new;
      NothingTallied(Submitting(w.config), Sampled);
    }

    /** Hands a plan to the window and keeps its ticket under a fresh result identity. */
    method Pass(p: Plan) returns (r: Result<nat, AdapterError>)
      requires Books(queue) && !window.EdgeDue()
      modifies this`tickets, this`nextId, this`plans, window
      ensures r.Ok? ==> Books([Flight(p, r.value)] + queue)
      ensures r.Ok? ==> window.history == old(window.history) + (if window.result.Some? then [] else [SubmissionOf(window.config, p)])
      ensures r.Ok? ==> plans == old(plans) + (if window.result.Some? then [] else [p])
      ensures window.edges == old(window.edges) && window.result == old(window.result)
      ensures r.Err? ==> !ProtocolFault(r.error) && r.error.FromWindow? && r.error.error != TokenMismatch
      ensures r.Err? ==> RefusesOffer(window.config, window.events, [SubmissionOf(window.config, p)], r.error.error)
    {
      hide Inv, Tallied, Records, Run, SubmissionOf, SubmitStep, Pure;
      var s := SubmissionOf(window.config, p);
      SubmittingIs(window.config, p);
      SubmitOutcome(window.config, window.View(), window.history, s);
      ghost var pending, history := window.pending, window.history;
      var submitted := window.Submit(s);
      if submitted.Err? {
        return Err(FromWindow(submitted.error));
      }
      TallyLaunch(Submitting(window.config), Sampled, history, pending, window.pending, tickets, nextId, queue,
                  [Flight(p, nextId)] + queue, plans, p, submitted.value);
      var id := nextId;
      tickets := tickets[id := Ticket(submitted.value, Pure(p))];
      nextId := nextId + 1;
      assert plans + [] == plans && history + [] == history;
      plans := plans + (if submitted.value.Some? then [p] else []);
      return Ok(id);
    }

    /** The wrapped `schedule`. */
    method Schedule(p: Plan) returns (r: Result<nat, AdapterError>)
      requires Books(queue) && !window.EdgeDue()
      modifies this`tickets, this`nextId, this`peak, this`plans, window
      ensures r.Ok? ==> Books([Flight(p, r.value)] + queue)
      ensures r.Ok? ==> window.history == old(window.history) + (if window.result.Some? then [] else [SubmissionOf(window.config, p)])
      ensures r.Ok? && window.result.None? ==> Tells(window.config, p, window.history[|window.history| - 1])
      ensures r.Ok? ==> plans == old(plans) + (if window.result.Some? then [] else [p])
      ensures r.Ok? ==> peak == Peaked(old(peak), p)
      ensures window.edges == old(window.edges) && window.result == old(window.result)
      ensures r.Err? ==> !ProtocolFault(r.error) && Declines(window.config, window.events, p, r.error)
    {
      hide Inv, Tallied, SubmissionOf, Records, Run, Pure, Books, Tells, Decodes;
      SubmissionTells(window.config, p);
      PureDecodes(p);
      if p.preempted != 0 {
        return Err(SchedulerPreempted);
      }
      if Pure(p) && |p.shares| > peak {
        peak := |p.shares|;
      }
      r := Pass(p);
    }

    /** The wrapped `update_from_output`: the popped output's own ticket, with its own sampled tokens. */
    method Update(f: Flight<Plan>) returns (r: Result<(), AdapterError>)
      requires Books(queue + [f])
      modifies this`tickets, window
      ensures f.id in old(tickets)
      ensures r.Ok? ==> Books(queue)
      ensures r.Ok? ==>
        var id := old(tickets)[f.id].id;
        window.events == old(window.events) + [Event.Complete(id, if Decodes(f.batch) && id.Some? then Some(f.batch.sampled) else None)]
      ensures r.Err? <==> old(tickets)[f.id].id.Some? && Miscounts(f.batch)
      ensures r.Err? ==> r.error == FromWindow(TokenMismatch)
      ensures window.Stand() == old(window.Stand())
    {
      hide Inv, Tallied, Records, Run, Pure, TotalScheduled;
      assert (queue + [f])[|queue|] == f;
      if f.id !in tickets {
        FlightOutcome(Submitting(window.config), Sampled, window.config, window.View(), window.history, tickets, nextId, queue + [f], plans, f, None);
        return Err(LostTicket);
      }
      var ticket := tickets[f.id];
      PureDecodes(f.batch);
      SubmittingIs(window.config, f.batch);
      FlightOutcome(Submitting(window.config), Sampled, window.config, window.View(), window.history, tickets, nextId, queue + [f], plans, f,
                    Actual(ticket, f.batch));
      ghost var held, pending := tickets, window.pending;
      tickets := tickets - {f.id};
      var done := window.Complete(ticket.id, Actual(ticket, f.batch));
      if done.Err? {
        return Err(FromWindow(done.error));
      }
      TallyLand(Submitting(window.config), Sampled, window.history, pending, window.pending, held, nextId, f, queue + [f], queue, plans);
      return Ok(());
    }

    /** Schedules a plan and queues it as the newest. */
    method Enqueue(p: Plan) returns (r: Result<(), AdapterError>)
      requires Books(queue) && !window.EdgeDue()
      modifies this`queue, this`tickets, this`nextId, this`peak, this`plans, window
      ensures r.Ok? ==> Books(queue) && |queue| == |old(queue)| + 1 && queue[0].batch == p && queue[1..] == old(queue)
      ensures r.Ok? ==> peak == Peaked(old(peak), p)
      ensures r.Ok? ==> window.history == old(window.history) + (if window.result.Some? then [] else [SubmissionOf(window.config, p)])
      ensures r.Ok? ==> plans == old(plans) + (if window.result.Some? then [] else [p])
      ensures window.edges == old(window.edges) && window.result == old(window.result)
      ensures r.Err? ==> !ProtocolFault(r.error) && Declines(window.config, window.events, p, r.error)
    {
      hide Inv, Tallied, SubmissionOf, Records, Run, Declines, Books;
      var launched := Schedule(p);
      if launched.Err? {
        return Err(launched.error);
      }
      queue := [Flight(p, launched.value)] + queue;
      return Ok(());
    }

    /** Pops the oldest result, if there is one, and processes it. */
    method Drain() returns (r: Result<(), AdapterError>)
      requires Books(queue)
      modifies this`queue, this`tickets, window
      ensures r.Ok? ==> Books(queue)
      ensures if old(queue) == [] then r.Ok? && queue == [] else queue == old(queue)[..|old(queue)| - 1]
      ensures window.Stand() == old(window.Stand())
      ensures r.Err? ==> r.error == FromWindow(TokenMismatch) && old(queue) != [] && Miscounts(old(queue)[|old(queue)| - 1].batch)
    {
      hide Inv, Tallied, Records, Run, Miscounts, Books;
      if queue == [] {
        return Ok(());
      }
      var f := queue[|queue| - 1];
      assert queue == queue[..|queue| - 1] + [f];
      queue := queue[..|queue| - 1];
      r := Update(f);
    }

    /** One engine step; while draining it schedules nothing. */
    method EngineStep(turn: Turn) returns (r: Result<(), AdapterError>)
      requires Books(queue) && (draining || !window.EdgeDue())
      modifies this`queue, this`tickets, this`nextId, this`peak, this`plans, window
      ensures r.Ok? ==> Books(queue)
      ensures r.Ok? && draining && old(queue) != [] ==> queue == old(queue)[..|old(queue)| - 1]
      ensures r.Ok? ==> forall f :: f in queue ==> f in old(queue) || turn.plan == Some(f.batch)
      ensures r.Ok? ==> window.history == old(window.history) + (if window.result.Some? || draining then [] else Offer(window.config, turn))
      ensures r.Ok? ==> plans == old(plans) + (if window.result.Some? || draining || turn.plan.None? then [] else [turn.plan.value])
      ensures r.Ok? ==> peak == if draining || turn.plan.None? then old(peak) else Peaked(old(peak), turn.plan.value)
      ensures r.Ok? && draining ==> window.Stand() == old(window.Stand())
      ensures window.edges == old(window.edges) && window.result == old(window.result)
      ensures r.Err? ==> !ProtocolFault(r.error)
      ensures r.Err? ==>
        || Blames(window.config, window.events, turn, r.error)
        || (r.error == FromWindow(TokenMismatch) && SomeMiscount(old(queue), [turn]))
    {
      hide Inv, Tallied, SubmissionOf, Records, Run, Books, Miscounts, Declines, Blames, SomeMiscount;
      if !draining && turn.plan.Some? {
        r := Enqueue(turn.plan.value);
        if r.Err? {
          DeclinesBlames(window.config, window.events, turn, r.error);
          return;
        }
        if !turn.awaits {
          return;
        }
      }
      ghost var flights := queue;
      r := Drain();
      if r.Err? {
        MiscountOf(flights[|flights| - 1], old(queue), turn);
      }
    }

    /** Calls `boundary` with nothing in flight. */
    method CloseEdge(now: real, graphs: GraphStats) returns (r: Result<(), AdapterError>)
      requires Books(queue) && queue == []
      modifies window
      ensures r.Ok? ==> Books(queue) && !window.EdgeDue() && window.history == old(window.history)
      ensures r.Ok? ==> Turned(old(window.Log()), window.Log(), [], Reading(now, graphs)) && Waits(window.config, old(window.Log()), window.Log())
      ensures r.Err? ==> !ProtocolFault(r.error) && r.error.FromWindow?
      ensures r.Err? ==> RefusesEdge(window.config, window.events, Reading(now, graphs), r.error.error)
    {
      hide Inv, Tallied, Records, Run, BoundaryStep, Turned, Waits;
      TallyDrained(Submitting(window.config), Sampled, window.history, window.pending, tickets, nextId, plans);
      EdgeErrors(window.config, window.View(), window.history, now, graphs);
      BoundaryPending(window.config, window.View(), now, graphs);
      ghost var before := window.Log();
      var edge := window.Boundary(now, graphs);
      if edge.Err? {
        return Err(FromWindow(edge.error));
      }
      BoundaryTurns(window.config, before, window.Log(), Reading(now, graphs));
      EdgeCloses(window.config, before, window.Log(), Reading(now, graphs));
      return Ok(());
    }

    /**
     The body of the measurement loop.  While an edge is due with results in flight, it submits
     nothing and the queue gets shorter; a due edge closes as soon as the queue is empty.
     */
    method Iterate(turn: Turn) returns (r: Result<(), AdapterError>)
      requires Books(queue)
      modifies this, window
      ensures r.Ok? ==> Books(queue) && Waits(window.config, old(window.Log()), window.Log())
      ensures r.Ok? && old(window.EdgeDue()) && old(queue) != [] ==> |queue| == |old(queue)| - 1 && window.EdgeDue()
      ensures r.Ok? ==> forall f :: f in queue ==> f in old(queue) || turn.plan == Some(f.batch)
      ensures r.Ok? ==> Turned(old(window.Log()), window.Log(),
        if old(window.EdgeDue()) && old(queue) != [] then [] else Offer(window.config, turn), ReadingOf(turn))
      ensures r.Ok? ==>
        peak == if (old(window.EdgeDue()) && old(queue) != []) || turn.plan.None? then old(peak) else Peaked(old(peak), turn.plan.value)
      ensures r.Ok? ==> old(plans) <= plans && forall k :: |old(plans)| <= k < |plans| ==> turn.plan == Some(plans[k])
      ensures r.Err? ==> !ProtocolFault(r.error)
      ensures r.Err? ==>
        || Blames(window.config, window.events, turn, r.error)
        || (r.error == FromWindow(TokenMismatch) && SomeMiscount(old(queue), [turn]))
    {
      hide Inv, Tallied, SubmissionOf, Records, Run, SomeMiscount, Books, Offer;
      draining := window.EdgeDue();
      if draining && queue == [] {
        r := CloseEdge(turn.now, turn.graphs);
        if r.Err? {
          return;
        }
        draining := false;
      }
      ghost var closed := window.Log();
      r := EngineStep(turn);
      if r.Ok? {
        StepTurns(window.config, old(window.Log()), closed, window.Log(), if draining then [] else Offer(window.config, turn), ReadingOf(turn));
      }
    }

    lemma MeasuredResult()
      requires Books(queue) && Vouches(window.config, window.View(), window.history)
      ensures FullyProduced(Submitting(window.config), Sampled, window.config, window.history, plans) && Steady(window.config, plans)
    {
      hide Inv, Records, Vouches, FullyProduced, Steady;
      ResultProduced(Submitting(window.config), Sampled, window.config, window.View(), window.history, plans);
      SteadyPlans(window.config, window.View(), window.history, plans);
    }

    /**
     The whole measurement.  It ends when no request is unfinished and the queue is empty, closes a
     due edge, and then either reports the result or fails.  Every turn's plan is submitted in order
     unless the turn drains at an edge; a reported result vouches for exactly the submitted plans,
     the measured ones of which sampled one token for each of the same `concurrency` requests, every
     time one token further, and accounts for the readings at the edges.  The run never ends in a protocol fault, and it fails
     only when a turn or the last readings give cause, a decode plan miscounts, or without full
     residency or a result.
     */
    method Measure(turns: seq<Turn>, endNow: real, endGraphs: GraphStats)
      returns (r: Result<Status, AdapterError>, ghost ran: nat, ghost offers: seq<seq<Submission>>)
      requires Books(queue)
      modifies this, window
      ensures r.Err? ==> !ProtocolFault(r.error)
      ensures r.Ok? && r.value.Finished? ==> window.result == Some(r.value.result) && peak == window.config.concurrency
      ensures r.Err? ==>
        || (r.error == NoResult && window.result.None?)
        || (r.error == IncompleteResidency && peak != window.config.concurrency)
        || Causes(window.config, window.events, old(queue), turns, Reading(endNow, endGraphs), r.error)
      ensures r == Ok(Running) ==> Scheduled(window.config, old(window.Log()), window.Log(), turns, offers)
      ensures (r.Ok? && r.value.Finished?) || r == Err(NoResult) || r == Err(IncompleteResidency) ==>
        queue == [] && Ended(window.config, old(window.Log()), window.Log(), turns, ran, Reading(endNow, endGraphs), offers, old(peak), peak)
      ensures r.Ok? && r.value.Finished? ==> Backed(window.config, window.Log(), plans)
      ensures r.Ok? ==> Books(queue) && ScheduledBy(turns, plans, |old(plans)|)
    {
      hide Inv, Tallied, Vouches, Accounts, FullyProduced, Steady, Scheduled, Completed, Turned, Waits, Refuses, RefusesEdge, Run, Records, BoundaryStep, SomeMiscount, Books, Peaked;
      var i := 0;
      ran, offers := 0, [];
      NothingScheduled(window.config, window.Log());
      while i < |turns| && (turns[i].unfinished || queue != [])
        invariant 0 <= i <= |turns| && Books(queue) && ScheduledBy(turns[..i], plans, |old(plans)|)
        invariant Scheduled(window.config, old(window.Log()), window.Log(), turns[..i], offers)
        invariant |offers| == i && peak == PeakOver(old(peak), turns[..i], offers)
        invariant forall f :: f in queue ==> f in old(queue) || exists k :: 0 <= k < i && turns[k].plan == Some(f.batch)
      {
        ghost var before, flights, held := window.Log(), queue, plans;
        ghost var offer := if window.EdgeDue() && queue != [] then [] else Offer(window.config, turns[i]);
        var done := Iterate(turns[i]);
        if done.Err? {
          MiscountKnown(old(queue), flights, turns, i);
          return Err(done.error), i, offers;
        }
        ScheduledNext(window.config, old(window.Log()), before, window.Log(), turns[..i], offers, turns[i], offer);
        assert turns[..i + 1] == turns[..i] + [turns[i]];
        ScheduledByNext(turns[..i], turns[i], held, plans, |old(plans)|);
        PeakOverNext(old(peak), turns[..i], offers, turns[i], offer);
        offers := offers + [offer];
        i := i + 1;
      }
      ran := i;
      ScheduledByMore(turns, i, plans, |old(plans)|);
      if i == |turns| {
        assert turns[..i] == turns;
        return Ok(Running), ran, offers;
      }
      ghost var before := window.Log();
      var closed := CloseEdge(endNow, endGraphs);
      if closed.Err? {
        return Err(closed.error), ran, offers;
      }
      CompletedNext(window.config, old(window.Log()), before, window.Log(), turns[..i], offers, Reading(endNow, endGraphs));
      if peak != window.config.concurrency {
        return Err(IncompleteResidency), ran, offers;
      }
      if window.result.None? {
        return Err(NoResult), ran, offers;
      }
      assert window.Valid() by { BooksAreValid(); }
      LoggedResult(window);
      MeasuredResult();
      return Ok(Finished(window.result.value)), ran, offers;
    }

    lemma BooksAreValid()
      requires Books(queue)
      ensures window.Valid()
    {
    }
  }

  /** The plan decodes `concurrency` different requests and samples a token for each. */
  ghost predicate FullPlan(c: Config, p: Plan) {
    && Decodes(p) && |p.shares| == c.concurrency && p.sampled == c.concurrency
    && forall i, j :: 0 <= i < j < |p.shares| ==> p.shares[i].id != p.shares[j].id
  }

  /** The same requests, each of which will be n tokens further after its step. */
  ghost predicate Further(p: Plan, p': Plan, n: int) {
    && |p.shares| == |p'.shares|
    && forall i, j :: 0 <= i < |p.shares| && 0 <= j < |p'.shares| && p.shares[i].id == p'.shares[j].id ==>
         p'.shares[j].computed + p'.shares[j].scheduled == p.shares[i].computed + p.shares[i].scheduled + n
  }

  ghost predicate SameRequests(p: Plan, p': Plan) {
    forall i :: 0 <= i < |p.shares| ==> exists j :: 0 <= j < |p'.shares| && p'.shares[j].id == p.shares[i].id
  }

  /** The last `targetSteps` plans are full and follow one another. */
  ghost predicate Steady(c: Config, plans: seq<Plan>) {
    && 0 < c.targetSteps <= |plans|
    && var from := |plans| - c.targetSteps;
       forall k: nat :: from <= k < |plans| ==>
         FullPlan(c, plans[k]) && SameRequests(plans[from], plans[k]) && Further(plans[from], plans[k], k - from)
  }

  /** A result that vouches for exactly these plans, and accounts for its edges. */
  ghost predicate Backed(c: Config, t: Trace, plans: seq<Plan>) {
    Vouches(c, t.w, t.subs) && Accounts(c, t) && FullyProduced(Submitting(c), Sampled, c, t.subs, plans) && Steady(c, plans)
  }

  lemma SteadyPlans(c: Config, w: Window, subs: seq<Submission>, plans: seq<Plan>)
    requires Vouches(c, w, subs) && FullyProduced(Submitting(c), Sampled, c, subs, plans)
    ensures Steady(c, plans)
  {
    hide TokensApart, SubmissionOf, Tells, FullPlan, SameRequests, Further, HasContexts;
    var from := |subs| - c.targetSteps;
    forall k: nat | from <= k < |subs|
      ensures FullPlan(c, plans[k]) && SameRequests(plans[from], plans[k]) && Further(plans[from], plans[k], k - from)
    {
      assert subs[k] == Submitting(c)(plans[k]) && subs[from] == Submitting(c)(plans[from]);
      SubmittingIs(c, plans[k]);
      SubmittingIs(c, plans[from]);
      SubmissionTells(c, plans[k]);
      SubmissionTells(c, plans[from]);
      assert TokensApart(subs[from], subs[k], k - from);
      PlansFollow(c, plans[from], plans[k], subs[from], subs[k], k - from);
    }
  }

  lemma PlansFollow(c: Config, p: Plan, p': Plan, s: Submission, s': Submission, n: int)
    requires Tells(c, p, s) && Tells(c, p', s') && TokensApart(s, s', n) && multiset(s.requestIds) == multiset(s'.requestIds)
    requires s'.isDecode && p'.sampled == c.concurrency == |s'.requestIds| && Distinct(s'.requestIds)
    ensures FullPlan(c, p') && SameRequests(p, p') && Further(p, p', n)
  {
    hide TotalScheduled;
    assert |s.requestIds| == |multiset(s.requestIds)| == |multiset(s'.requestIds)| == |s'.requestIds|;
    forall i | 0 <= i < |p.shares| ensures exists j :: 0 <= j < |p'.shares| && p'.shares[j].id == p.shares[i].id {
      MultisetMember(s.requestIds, s'.requestIds, s.requestIds[i]);
      var j :| 0 <= j < |s'.requestIds| && s'.requestIds[j] == s.requestIds[i];
      assert p'.shares[j].id == p.shares[i].id;
    }
    forall i, j | 0 <= i < |p.shares| && 0 <= j < |p'.shares| && p.shares[i].id == p'.shares[j].id
      ensures p'.shares[j].computed + p'.shares[j].scheduled == p.shares[i].computed + p.shares[i].scheduled + n
    {
      assert s.requestIds[i] == s'.requestIds[j];
    }
    forall i, j | 0 <= i < j < |p'.shares| ensures p'.shares[i].id != p'.shares[j].id {
      assert s'.requestIds[i] != s'.requestIds[j];
    }
  }

  lemma NothingScheduled(c: Config, t: Trace)
    ensures Scheduled(c, t, t, [], [])
  {
    FollowNothing(t);
  }

  /** A step after the edge submits its offer, or waits at a due edge. */
  lemma StepTurns(c: Config, t: Trace, m: Trace, t': Trace, offer: seq<Submission>, reading: Reading)
    requires m == t || (Turned(t, m, [], reading) && Waits(c, t, m))
    requires m == t ==> (NeedsBoundary(c, t.w) ==> offer == [] && NeedsBoundary(c, t'.w))
    requires t'.edges == m.edges && t'.w.result == m.w.result
    requires t'.subs == m.subs + (if t'.w.result.Some? then [] else offer)
    requires m != t ==> NeedsBoundary(c, t.w) && |m.edges| == |t.edges| + 1
    ensures Turned(t, t', offer, reading) && Waits(c, t, t')
  {
    assert t.subs + [] == t.subs && m.subs + [] == m.subs;
  }

  lemma EdgeCloses(c: Config, m: Trace, t': Trace, reading: Reading)
    requires t'.edges == if NeedsBoundary(c, m.w) then m.edges + [Edge(|m.subs|, reading.now, reading.graphs)] else m.edges
    ensures Waits(c, m, t')
  {
  }

  lemma DeclinesBlames(c: Config, events: seq<Event>, t: Turn, e: AdapterError)
    requires t.plan.Some? && Declines(c, events, t.plan.value, e)
    ensures Blames(c, events, t, e)
  {
    hide SubmissionOf, RefusesOffer, RefusesEdge;
  }

  lemma MiscountOf(f: Flight<Plan>, flights: seq<Flight<Plan>>, turn: Turn)
    requires f in flights || turn.plan == Some(f.batch)
    ensures Miscounts(f.batch) ==> SomeMiscount(flights, [turn])
  {
    hide Miscounts;
    assert [turn][0] == turn;
  }

  lemma MiscountKnown(first: seq<Flight<Plan>>, flights: seq<Flight<Plan>>, turns: seq<Turn>, i: nat)
    requires i < |turns| && forall f :: f in flights ==> f in first || exists k :: 0 <= k < i && turns[k].plan == Some(f.batch)
    ensures SomeMiscount(flights, [turns[i]]) ==> SomeMiscount(first, turns)
  {
    hide Miscounts;
    if exists f :: f in flights && Miscounts(f.batch) {
      var f :| f in flights && Miscounts(f.batch);
    } else if SomeMiscount(flights, [turns[i]]) {
      assert turns[i].plan.Some? && Miscounts(turns[i].plan.value);
    }
  }
}

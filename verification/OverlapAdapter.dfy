/**
 The SGLang adapter: wrappers around an overlap scheduler whose loop runs the
 next batch before processing the previous result.
 */
module OverlapAdapter {
  import opened Outcomes
  import opened Sorting
  import opened DecodeWindow
  import opened WindowRuns
  import opened PipelinedWindow
  import opened Flights
  import opened Driving
  import opened ReplayCounting

  /** `produced` and `graphed` say what running the batch will turn out to do. */
  datatype Batch = Batch(
    isDecode: bool, rids: seq<int>, seqLens: seq<int>, extendTokens: int, retractions: nat, produced: int, graphed: bool)

  /**
   What the engine does in one loop iteration: whether it overlaps, which batch it picks, how many
   graphs it captures, and what the clock and the other ranks would read at an edge.
   */
  datatype Turn = Turn(overlap: bool, batch: Option<Batch>, captures: nat, now: real, peers: seq<Counters>)

  function SubmissionOf(c: Config, b: Batch): Submission {
    Submission(b.isDecode, b.rids, if b.isDecode then |b.rids| else b.extendTokens,
               b.isDecode && |b.rids| == c.concurrency, b.seqLens, 0)
  }

  /** The submission carries the batch's own requests, contexts and tokens. */
  ghost predicate Tells(c: Config, b: Batch, s: Submission) {
    && s.isDecode == b.isDecode && s.requestIds == b.rids && s.contextLengths == b.seqLens && s.preemptions == 0
    && s.tokens == (if b.isDecode then |b.rids| else b.extendTokens)
    && (s.admissionComplete <==> b.isDecode && |b.rids| == c.concurrency)
  }

  lemma SubmissionTells(c: Config, b: Batch)
    ensures Tells(c, b, SubmissionOf(c, b))
  {
  }

  function Submitting(c: Config): Batch -> Submission { (b: Batch) => SubmissionOf(c, b) }

  lemma SubmittingIs(c: Config, b: Batch)
    ensures Submitting(c)(b) == SubmissionOf(c, b) && SubmissionOf(c, b).isDecode == b.isDecode
  {
  }

  function Produced(b: Batch): int { b.produced }

  /** A decode batch that does not produce one token per request. */
  ghost predicate Miscounts(b: Batch) { b.isDecode && b.produced != |b.rids| }

  /** The decode tokens reported for a processed batch. */
  function Actual(t: Ticket, b: Batch): Option<int> {
    if t.pure then Some(b.produced) else None
  }

  // ---------- what the turns choose ----------

  function BatchesOf(t: Turn): seq<Batch> { if t.batch.Some? then [t.batch.value] else [] }

  function Launched(turns: seq<Turn>): seq<Batch> { Concat(Map(BatchesOf, turns)) }

  function Offer(c: Config, t: Turn): seq<Submission> {
    if t.batch.Some? then [SubmissionOf(c, t.batch.value)] else []
  }

  function Offering(c: Config): Turn -> seq<Submission> { (t: Turn) => Offer(c, t) }

  /** This rank's counters after a turn, and after several. */
  function Counted(g: Counters, t: Turn): Counters {
    var h := g.(captures := g.captures + t.captures);
    if t.batch.Some? then RunCounted(h, t.batch.value.isDecode, t.batch.value.graphed) else h
  }

  function After(g: Counters, turns: seq<Turn>): Counters {
    if turns == [] then g else Counted(After(g, turns[..|turns| - 1]), turns[|turns| - 1])
  }

  /** What is read at an edge that closes at the start of a turn. */
  function ReadingAt(g: Counters, t: Turn): Reading { Reading(t.now, Ranks([g] + t.peers)) }

  function Readings(g: Counters, turns: seq<Turn>): seq<Reading> {
    if turns == [] then []
    else Readings(g, turns[..|turns| - 1]) + [ReadingAt(After(g, turns[..|turns| - 1]), turns[|turns| - 1])]
  }

  /** A turn without captures, eager decodes or other ranks. */
  predicate Quiet(t: Turn) {
    t.captures == 0 && t.peers == [] && (t.batch.Some? && t.batch.value.isDecode ==> t.batch.value.graphed)
  }

  // ---------- why a run may end ----------

  /** Running a batch fails for a retraction, or if the window refuses the submission. */
  ghost predicate Declines(c: Config, events: seq<Event>, b: Batch, e: AdapterError) {
    match e
    case SchedulerPreempted => b.retractions != 0
    case FromWindow(x) => RefusesOffer(c, events, [SubmissionOf(c, b)], x) && x != GraphViolation
    case _ => false
  }

  /** No overlap, a retraction, or an edge or a submission of this turn that the window refuses. */
  ghost predicate Blames(c: Config, events: seq<Event>, t: Turn, reading: Reading, e: AdapterError) {
    match e
    case OverlapDisabled => !t.overlap
    case SchedulerPreempted => t.batch.Some? && t.batch.value.retractions != 0
    case FromWindow(x) => Refuses(c, events, Offer(c, t), reading, x)
    case _ => false
  }

  /** A batch in flight, or one that a turn chose, did not produce one token per request. */
  ghost predicate SomeMiscount(flights: seq<Flight<Batch>>, turns: seq<Turn>) {
    || (exists f :: f in flights && Miscounts(f.batch))
    || (exists i :: 0 <= i < |turns| && turns[i].batch.Some? && Miscounts(turns[i].batch.value))
  }

  class Adapter {
    const window: PipelinedDecodeWindow
    var queue: seq<Flight<Batch>>
    var tickets: map<nat, Ticket>
    var nextId: nat
    var lastBatch: bool
    var graph: Counters
    ghost var batches: seq<Batch>   // the batch behind every accepted submission
    ghost var captured: nat         // captures since the first edge
    ghost var eager: nat            // eager decodes since the first edge

    ghost predicate Books(flights: seq<Flight<Batch>>)
      reads this`tickets, this`nextId, this`batches, window
    {
      && window.Valid()
      && Tallied(Submitting(window.config), Produced, window.history, window.pending, tickets, nextId, flights, batches)
    }

    ghost predicate Graphed()
      reads this`graph, this`captured, this`eager, window
    {
      Agrees(window.View(), graph, captured, eager)
    }

    /** Since the first edge there was nothing but replays, on one rank. */
    ghost predicate Clean()
      reads this`captured, this`eager, window
    {
      && captured == eager == 0
      && (window.started.Some? && window.result.None? ==> PeersReplayed(window.View(), [], window.config.targetSteps))
    }

    /** At the head of the loop the one unprocessed result is that of the last batch. */
    ghost predicate AtLoopHead()
      reads this, window
    {
      Books(queue) && Graphed() && |queue| == (if lastBatch then 1 else 0)
    }

    constructor (w: PipelinedDecodeWindow)
      requires w.Valid() && w.Log() == Trace(Init(), [], [])
      ensures window == w && AtLoopHead() && Clean() && queue == [] && batches == [] && graph == Counters(0, 0, 0)
    {
      window := w;
      queue, tickets, nextId, lastBatch, graph := [], map[], 0, false, Counters(0, 0, 0);
      batches, captured, eager := [], 0, 0;
      new;
      NothingTallied(Submitting(w.config), Produced);
    }

    /** Processes one popped result: its own ticket, with what its own batch produced. */
    method ProcessResult(f: Flight<Batch>) returns (r: Result<(), AdapterError>)
      requires Books([f] + queue)
      modifies this`tickets, window
      ensures f.id in old(tickets)
      ensures r.Ok? ==> Books(queue)
      ensures r.Ok? ==> window.events == old(window.events) + [Event.Complete(old(tickets)[f.id].id, if f.batch.isDecode then Some(f.batch.produced) else None)]
      ensures r.Err? <==> old(tickets)[f.id].id.Some? && Miscounts(f.batch)
      ensures r.Err? ==> r.error == FromWindow(TokenMismatch)
      ensures window.Stand() == old(window.Stand()) && (old(Graphed()) ==> Graphed()) && (old(Clean()) ==> Clean())
    {
      hide Inv, Tallied, Records, Run, Agrees, PeersReplayed;
      assert ([f] + queue)[0] == f;
      FlightOutcome(Submitting(window.config), Produced, window.config, window.View(), window.history, tickets, nextId, [f] + queue, batches, f,
                    if f.batch.isDecode then Some(f.batch.produced) else None);
      if f.id !in tickets {
        return Err(LostTicket);
      }
      var ticket := tickets[f.id];
      ghost var held, before := tickets, window.View();
      tickets := tickets - {f.id};
      var done := window.Complete(ticket.id, Actual(ticket, f.batch));
      SameAgreement(before, window.View(), graph, captured, eager, [], window.config.targetSteps);
      if done.Err? {
        return Err(FromWindow(done.error));
      }
      TallyLand(Submitting(window.config), Produced, window.history, before.pending, window.pending, held, nextId, f, [f] + queue, queue, batches);
      return Ok(());
    }

    /** Pops the oldest result and processes it; the loop only does so when there is one. */
    method ProcessOldest() returns (r: Result<(), AdapterError>)
      requires Books(queue) && queue != []
      modifies this`queue, this`tickets, window
      ensures queue == old(queue)[1..] && (r.Ok? ==> Books(queue))
      ensures r.Err? ==> r.error == FromWindow(TokenMismatch) && Miscounts(old(queue)[0].batch)
      ensures window.Stand() == old(window.Stand()) && (old(Graphed()) ==> Graphed()) && (old(Clean()) ==> Clean())
    {
      hide Inv, Tallied, Records, Run, Graphed, Clean;
      var f := queue[0];
      assert queue == [f] + queue[1..];
      queue := queue[1..];
      r := ProcessResult(f);
    }

    /** Processes every queued result. */
    method Drain() returns (r: Result<(), AdapterError>)
      requires Books(queue)
      modifies this`queue, this`tickets, window
      ensures r.Ok? ==> queue == [] && Books(queue) && window.pending == map[]
      ensures r.Err? ==> r.error == FromWindow(TokenMismatch) && SomeMiscount(old(queue), [])
      ensures window.Stand() == old(window.Stand()) && (old(Graphed()) ==> Graphed()) && (old(Clean()) ==> Clean())
    {
      hide Inv, Tallied, Records, Run, Graphed, Clean;
      while queue != []
        invariant Books(queue) && forall f :: f in queue ==> f in old(queue)
        invariant window.Stand() == old(window.Stand()) && (old(Graphed()) ==> Graphed()) && (old(Clean()) ==> Clean())
      {
        ghost var oldest := queue[0];
        assert oldest in queue;
        r := ProcessOldest();
        if r.Err? {
          return;
        }
      }
      TallyDrained(Submitting(window.config), Produced, window.history, window.pending, tickets, nextId, batches);
      return Ok(());
    }

    /**
     The wrapped `get_next_batch_to_run`: at a due edge, drain every result, then close the edge.
     The counters are refused exactly if since the first edge something was captured or decoded
     eagerly, or another rank deviated.
     */
    method NextBatch(turn: Turn) returns (r: Result<(), AdapterError>)
      requires AtLoopHead()
      modifies this`queue, this`tickets, this`lastBatch, this`captured, this`eager, window
      ensures r.Ok? ==> AtLoopHead() && !window.EdgeDue() && (forall f :: f in queue ==> f in old(queue))
      ensures r.Ok? && old(window.EdgeDue()) ==> queue == []
      ensures r.Ok? ==> Turned(old(window.Log()), window.Log(), [], ReadingAt(graph, turn))
      ensures r.Ok? && old(window.EdgeDue()) ==> window.edges == old(window.edges) + [Edge(|window.history|, turn.now, Ranks([graph] + turn.peers))]
      ensures r.Ok? && old(window.EdgeDue() && window.started.Some?) ==>
        old(captured) == old(eager) == 0 && PeersReplayed(old(window.View()), turn.peers, window.config.targetSteps)
      ensures r == Err(FromWindow(GraphViolation)) ==>
        && old(window.started).Some?
        && !(old(captured) == old(eager) == 0 && PeersReplayed(old(window.View()), turn.peers, window.config.targetSteps))
      ensures old(Clean()) && turn.peers == [] ==> (r.Ok? ==> Clean()) && r != Err(FromWindow(GraphViolation))
      ensures r.Err? ==> !ProtocolFault(r.error)
      ensures r.Err? ==>
        || Blames(window.config, window.events, turn, ReadingAt(graph, turn), r.error)
        || (r.error == FromWindow(TokenMismatch) && SomeMiscount(old(queue), []))
    {
      hide Inv, Tallied, Records, Run, Graphed, Clean, PeersReplayed;
      if !turn.overlap {
        return Err(OverlapDisabled);
      }
      if window.EdgeDue() {
        ghost var before := window.View();
        r := Drain();
        if r.Err? {
          return;
        }
        SameAgreement(before, window.View(), graph, captured, eager, turn.peers, window.config.targetSteps);
        lastBatch := false;
        r := CloseEdge(turn);
      } else {
        return Ok(());
      }
    }

    /** Closes a due edge once everything is drained. */
    method CloseEdge(turn: Turn) returns (r: Result<(), AdapterError>)
      requires Books(queue) && Graphed() && queue == [] && window.pending == map[] && window.EdgeDue()
      modifies this`captured, this`eager, window
      ensures r.Ok? ==> Books(queue) && Graphed() && !window.EdgeDue()
      ensures r.Ok? ==> window.history == old(window.history)
      ensures r.Ok? ==> window.edges == old(window.edges) + [Edge(|window.history|, turn.now, Ranks([graph] + turn.peers))]
      ensures r.Ok? && old(window.started).Some? ==>
        old(captured) == old(eager) == 0 && PeersReplayed(old(window.View()), turn.peers, window.config.targetSteps)
      ensures r == Err(FromWindow(GraphViolation)) ==>
        && old(window.started).Some?
        && !(old(captured) == old(eager) == 0 && PeersReplayed(old(window.View()), turn.peers, window.config.targetSteps))
      ensures old(Clean()) && turn.peers == [] ==> (r.Ok? ==> Clean()) && r != Err(FromWindow(GraphViolation))
      ensures r.Err? ==> !ProtocolFault(r.error) && r.error.FromWindow?
      ensures r.Err? ==> RefusesEdge(window.config, window.events, ReadingAt(graph, turn), r.error.error)
    {
      hide Inv, Tallied, Records, Run, PeersReplayed, Agrees, BoundaryStep;
      var graphs := Ranks([graph] + turn.peers);
      EdgeErrors(window.config, window.View(), window.history, turn.now, graphs);
      EdgeAgrees(window.config, window.View(), window.history, turn.now, graph, turn.peers, captured, eager);
      BoundaryPending(window.config, window.View(), turn.now, graphs);
      ghost var first := window.started.None?;
      if first {
        FirstEdgeReading(window.config, window.View(), turn.now, graphs);
      }
      var edge := window.Boundary(turn.now, graphs);
      if edge.Err? {
        return Err(FromWindow(edge.error));
      }
      if first {
        captured, eager := 0, 0;
        FirstReading(window.View(), graph, turn.peers, window.config.targetSteps);
      }
      return Ok(());
    }

    /** Hands a batch to the window and keeps its ticket under a fresh result identity. */
    method Pass(b: Batch) returns (r: Result<nat, AdapterError>)
      requires Books(queue) && !window.EdgeDue()
      modifies this`tickets, this`nextId, this`batches, window
      ensures r.Ok? ==> Books(queue + [Flight(b, r.value)])
      ensures r.Ok? ==> SubmitStep(window.config, old(window.View()), SubmissionOf(window.config, b)).Ok?
      ensures r.Ok? ==> window.View() == SubmitStep(window.config, old(window.View()), SubmissionOf(window.config, b)).value.0
      ensures r.Ok? ==> window.history == old(window.history) + (if window.result.Some? then [] else [SubmissionOf(window.config, b)])
      ensures r.Ok? ==> batches == old(batches) + (if window.result.Some? then [] else [b])
      ensures window.edges == old(window.edges) && window.result == old(window.result)
      ensures window.started == old(window.started) && window.graphBefore == old(window.graphBefore)
      ensures r.Err? ==> !ProtocolFault(r.error) && r.error.FromWindow? && r.error.error != GraphViolation && r.error.error != TokenMismatch
      ensures r.Err? ==> RefusesOffer(window.config, window.events, [SubmissionOf(window.config, b)], r.error.error)
    {
      hide Inv, Tallied, Records, Run, SubmissionOf, SubmitStep;
      var s := SubmissionOf(window.config, b);
      SubmittingIs(window.config, b);
      SubmitOutcome(window.config, window.View(), window.history, s);
      ghost var pending, history := window.pending, window.history;
      var submitted := window.Submit(s);
      if submitted.Err? {
        return Err(FromWindow(submitted.error));
      }
      TallyLaunch(Submitting(window.config), Produced, history, pending, window.pending, tickets, nextId, queue,
                  queue + [Flight(b, nextId)], batches, b, submitted.value);
      var id := nextId;
      tickets := tickets[id := Ticket(submitted.value, b.isDecode)];
      nextId := nextId + 1;
      assert batches + [] == batches && history + [] == history;
      batches := batches + (if submitted.value.Some? then [b] else []);
      return Ok(id);
    }

    /** The wrapped `run_batch`: submit to the window, launch, count the graph, remember the ticket. */
    method RunBatch(b: Batch) returns (r: Result<nat, AdapterError>)
      requires Books(queue) && Graphed() && !window.EdgeDue()
      modifies this`tickets, this`nextId, this`batches, this`graph, this`eager, window
      ensures r.Ok? ==> Books(queue + [Flight(b, r.value)]) && Graphed() && graph == RunCounted(old(graph), b.isDecode, b.graphed)
      ensures r.Ok? ==> window.history == old(window.history) + (if window.result.Some? then [] else [SubmissionOf(window.config, b)])
      ensures r.Ok? && window.result.None? ==> Tells(window.config, b, window.history[|window.history| - 1])
      ensures r.Ok? ==> batches == old(batches) + (if window.result.Some? then [] else [b])
      ensures window.edges == old(window.edges) && window.result == old(window.result)
      ensures r.Ok? && old(Clean()) && (b.isDecode ==> b.graphed) ==> Clean()
      ensures r.Err? ==> !ProtocolFault(r.error) && Declines(window.config, window.events, b, r.error)
    {
      hide Inv, Tallied, Records, Run, SubmitStep, Tells;
      SubmissionTells(window.config, b);
      if b.retractions != 0 {
        return Err(SchedulerPreempted);
      }
      ghost var s, before := SubmissionOf(window.config, b), window.View();
      r := Pass(b);
      if r.Err? {
        return;
      }
      SubmitAgrees(window.config, before, s, graph, captured, eager, b.graphed);
      eager := if window.result.None? && b.isDecode && !b.graphed then eager + 1 else eager;
      if b.isDecode {
        if b.graphed {
          graph := graph.(replays := graph.replays + 1);
        } else {
          graph := graph.(eagerDecodes := graph.eagerDecodes + 1);
        }
      }
    }

    /** Runs a batch and queues its result. */
    method LaunchBatch(b: Batch) returns (r: Result<(), AdapterError>)
      requires Books(queue) && Graphed() && !window.EdgeDue()
      modifies this`queue, this`tickets, this`nextId, this`batches, this`graph, this`eager, window
      ensures r.Ok? ==> Books(queue) && Graphed() && graph == RunCounted(old(graph), b.isDecode, b.graphed)
      ensures r.Ok? ==> |queue| == |old(queue)| + 1 && queue[..|old(queue)|] == old(queue) && queue[|old(queue)|].batch == b
      ensures r.Ok? ==> window.history == old(window.history) + (if window.result.Some? then [] else [SubmissionOf(window.config, b)])
      ensures r.Ok? ==> batches == old(batches) + (if window.result.Some? then [] else [b])
      ensures window.edges == old(window.edges) && window.result == old(window.result)
      ensures r.Ok? && old(Clean()) && (b.isDecode ==> b.graphed) ==> Clean()
      ensures r.Err? ==> !ProtocolFault(r.error) && Declines(window.config, window.events, b, r.error)
    {
      hide Inv, Tallied, Records, Run, SubmissionOf, Declines;
      var launched := RunBatch(b);
      if launched.Err? {
        return Err(launched.error);
      }
      queue := queue + [Flight(b, launched.value)];
      return Ok(());
    }

    /** The capture hook, called any number of times during a turn. */
    method Capture(n: nat)
      requires Graphed()
      modifies this`graph, this`captured
      ensures Graphed() && graph == old(graph).(captures := old(graph).captures + n)
      ensures n == 0 ==> captured == old(captured)
    {
      graph := graph.(captures := graph.captures + n);
      captured := if window.result.None? then captured + n else captured;
    }

    /** What a turn runs after its edge: captures, and the chosen batch. */
    method RunTurn(turn: Turn) returns (r: Result<(), AdapterError>)
      requires Books(queue) && Graphed() && !window.EdgeDue()
      modifies this`queue, this`tickets, this`nextId, this`batches, this`graph, this`captured, this`eager, window
      ensures r.Ok? ==> Books(queue) && Graphed() && graph == Counted(old(graph), turn)
      ensures r.Ok? ==> |queue| == |old(queue)| + (if turn.batch.Some? then 1 else 0) && old(queue) <= queue
      ensures r.Ok? ==> forall f :: f in queue ==> f in old(queue) || turn.batch == Some(f.batch)
      ensures r.Ok? ==> window.history == old(window.history) + (if window.result.Some? then [] else Offer(window.config, turn))
      ensures r.Ok? ==> batches == old(batches) + (if window.result.Some? then [] else BatchesOf(turn))
      ensures window.edges == old(window.edges) && window.result == old(window.result)
      ensures r.Ok? && old(Clean()) && Quiet(turn) ==> Clean()
      ensures r.Err? ==> !ProtocolFault(r.error) && turn.batch.Some? && Declines(window.config, window.events, turn.batch.value, r.error)
    {
      hide Inv, Tallied, Records, Run, SubmissionOf, Graphed, Books, Declines;
      Capture(turn.captures);
      if turn.batch.Some? {
        r := LaunchBatch(turn.batch.value);
        return;
      }
      return Ok(());
    }

    /** One iteration of the overlap loop. */
    method Iterate(turn: Turn) returns (r: Result<(), AdapterError>)
      requires AtLoopHead()
      modifies this, window
      ensures r.Ok? ==> AtLoopHead() && graph == Counted(old(graph), turn)
      ensures r.Ok? ==> Turned(old(window.Log()), window.Log(), Offer(window.config, turn), ReadingAt(old(graph), turn))
      ensures r.Ok? ==> batches == old(batches) + (if window.result.Some? then [] else BatchesOf(turn))
      ensures r.Ok? ==> forall f :: f in queue ==> f in old(queue) || turn.batch == Some(f.batch)
      ensures old(Clean()) && Quiet(turn) ==> (r.Ok? ==> Clean()) && r != Err(FromWindow(GraphViolation))
      ensures r.Err? ==> !ProtocolFault(r.error)
      ensures r.Err? ==>
        || Blames(window.config, window.events, turn, ReadingAt(old(graph), turn), r.error)
        || (r.error == FromWindow(TokenMismatch) && SomeMiscount(old(queue), [turn]))
    {
      hide Inv, Tallied, Records, Run, Graphed, Clean, Books, PeersReplayed, Blames, Declines, Counted, Offer, Turned;
      r := NextBatch(turn);
      if r.Err? {
        MoreMiscounts(old(queue), turn);
        return;
      }
      ghost var closed := window.Log();
      r := RunTurn(turn);
      if r.Err? {
        DeclinesBlames(window.config, window.events, turn, ReadingAt(old(graph), turn), r.error);
        return;
      }
      if lastBatch {
        assert queue[0] in queue;
        ghost var oldest := queue[0];
        r := ProcessOldest();
        if r.Err? {
          MiscountOf(oldest, old(queue), turn);
          return;
        }
      }
      lastBatch := turn.batch.Some?;
      TurnedThen(old(window.Log()), closed, window.Log(), Offer(window.config, turn), ReadingAt(old(graph), turn));
      return Ok(());
    }

    lemma ServedResult()
      requires Books(queue) && Vouches(window.config, window.View(), window.history)
      ensures FullyProduced(Submitting(window.config), Produced, window.config, window.history, batches) && Steady(window.config, batches)
    {
      hide Inv, Records, Vouches, FullyProduced, Steady;
      ResultProduced(Submitting(window.config), Produced, window.config, window.View(), window.history, batches);
      SteadyBatches(window.config, window.View(), window.history, batches);
    }

    /**
     Any number of iterations with any engine behaviour.  The batches that the turns chose are
     submitted in order until the turn whose readings close the second edge; a result that stands
     vouches for exactly those batches, the measured ones of which decoded and produced one token for
     each of the same `concurrency` requests, every time one token further, and accounts for those readings.  The run never ends in a protocol
     fault; it ends early only when a turn gives cause or a decode batch miscounts, and never for
     its graph counters as long as nothing is captured and every decode batch replays a graph.
     */
    method Serve(turns: seq<Turn>) returns (r: Result<(), AdapterError>)
      requires AtLoopHead()
      modifies this, window
      ensures r.Ok? ==> AtLoopHead() && graph == After(old(graph), turns)
      ensures r.Ok? ==> Followed(old(window.Log()), window.Log(), Map(Offering(window.config), turns), Readings(old(graph), turns))
      ensures r.Ok? ==> Supplied(old(batches), batches, Launched(turns), window.result.Some?)
      ensures r.Ok? && window.result.Some? ==>
        && Vouches(window.config, window.View(), window.history) && Accounts(window.config, window.Log())
        && FullyProduced(Submitting(window.config), Produced, window.config, window.history, batches) && Steady(window.config, batches)
      ensures old(Clean()) && (forall i :: 0 <= i < |turns| ==> Quiet(turns[i])) ==> r != Err(FromWindow(GraphViolation))
      ensures r.Err? ==> !ProtocolFault(r.error)
      ensures r.Err? ==>
        || (exists i :: 0 <= i < |turns| && Blames(window.config, window.events, turns[i], ReadingAt(After(old(graph), turns[..i]), turns[i]), r.error))
        || (r.error == FromWindow(TokenMismatch) && SomeMiscount(old(queue), turns))
    {
      hide Inv, Tallied, Vouches, Accounts, Blames, Followed, Supplied, Turned, Run, Records, FullyProduced, Steady, Graphed, Clean, Quiet;
      var i := 0;
      FollowNothing(window.Log());
      SupplyNothing(batches, window.result.Some?);
      while i < |turns|
        invariant 0 <= i <= |turns| && AtLoopHead() && graph == After(old(graph), turns[..i])
        invariant Followed(old(window.Log()), window.Log(), Map(Offering(window.config), turns[..i]), Readings(old(graph), turns[..i]))
        invariant Supplied(old(batches), batches, Launched(turns[..i]), window.result.Some?)
        invariant forall f :: f in queue ==> f in old(queue) || exists k :: 0 <= k < i && turns[k].batch == Some(f.batch)
        invariant old(Clean()) && (forall k :: 0 <= k < i ==> Quiet(turns[k])) ==> Clean()
      {
        ghost var before, run, flights := window.Log(), batches, queue;
        r := Iterate(turns[i]);
        if r.Err? {
          MiscountKnown(old(queue), flights, turns, i);
          return;
        }
        NextTurn(window.config, old(graph), turns, i);
        FollowNext(old(window.Log()), before, window.Log(), Map(Offering(window.config), turns[..i]), Readings(old(graph), turns[..i]),
                   Offer(window.config, turns[i]), ReadingAt(After(old(graph), turns[..i]), turns[i]));
        StaysPublished(before, window.Log(), Offer(window.config, turns[i]), ReadingAt(After(old(graph), turns[..i]), turns[i]));
        SupplyNext(old(batches), run, batches, Launched(turns[..i]), BatchesOf(turns[i]), before.w.result.Some?, window.result.Some?);
        i := i + 1;
      }
      assert turns[..i] == turns;
      if window.result.Some? {
        LoggedResult(window);
        ServedResult();
      }
      return Ok(());
    }
  }

  /** The batch decodes `concurrency` different requests and produces a token for each. */
  ghost predicate FullBatch(c: Config, b: Batch) {
    b.isDecode && |b.rids| == |b.seqLens| == c.concurrency && Distinct(b.rids) && b.produced == c.concurrency
  }

  /** The same requests, each n tokens further. */
  ghost predicate Further(b: Batch, b': Batch, n: int) {
    && multiset(b.rids) == multiset(b'.rids) && |b.seqLens| == |b.rids| && |b'.seqLens| == |b'.rids|
    && forall i, j :: 0 <= i < |b.rids| && 0 <= j < |b'.rids| && b.rids[i] == b'.rids[j] ==> b'.seqLens[j] == b.seqLens[i] + n
  }

  /** The last `targetSteps` batches are full and follow one another. */
  ghost predicate Steady(c: Config, batches: seq<Batch>) {
    && 0 < c.targetSteps <= |batches|
    && var from := |batches| - c.targetSteps;
       forall k: nat :: from <= k < |batches| ==> FullBatch(c, batches[k]) && Further(batches[from], batches[k], k - from)
  }

  lemma SteadyBatches(c: Config, w: Window, subs: seq<Submission>, batches: seq<Batch>)
    requires Vouches(c, w, subs) && FullyProduced(Submitting(c), Produced, c, subs, batches)
    ensures Steady(c, batches)
  {
    hide TokensApart, SubmissionOf;
    var from := |subs| - c.targetSteps;
    forall k: nat | from <= k < |subs| ensures FullBatch(c, batches[k]) && Further(batches[from], batches[k], k - from) {
      assert subs[k] == Submitting(c)(batches[k]) && subs[from] == Submitting(c)(batches[from]);
      SubmittingIs(c, batches[k]);
      SubmittingIs(c, batches[from]);
      SubmissionTells(c, batches[k]);
      SubmissionTells(c, batches[from]);
      assert TokensApart(subs[from], subs[k], k - from);
      FurtherApart(c, batches[from], batches[k], subs[from], subs[k], k - from);
    }
  }

  lemma FurtherApart(c: Config, b: Batch, b': Batch, s: Submission, s': Submission, n: int)
    requires Tells(c, b, s) && Tells(c, b', s') && TokensApart(s, s', n) && multiset(s.requestIds) == multiset(s'.requestIds)
    ensures Further(b, b', n)
  {
  }

  lemma FirstEdgeReading(c: Config, w: Window, now: real, graphs: GraphStats)
    requires NeedsBoundary(c, w) && w.started.None?
    ensures BoundaryStep(c, w, now, graphs).Ok? ==> BoundaryStep(c, w, now, graphs).value.graphBefore == Some(graphs)
  {
    hide MeasuredRows, Advance;
  }

  lemma MoreMiscounts(flights: seq<Flight<Batch>>, turn: Turn)
    ensures SomeMiscount(flights, []) ==> SomeMiscount(flights, [turn])
  {
  }

  lemma MiscountOf(f: Flight<Batch>, flights: seq<Flight<Batch>>, turn: Turn)
    requires f in flights || turn.batch == Some(f.batch)
    ensures Miscounts(f.batch) ==> SomeMiscount(flights, [turn])
  {
    assert [turn][0] == turn;
  }

  lemma DeclinesBlames(c: Config, events: seq<Event>, t: Turn, reading: Reading, e: AdapterError)
    requires t.batch.Some? && Declines(c, events, t.batch.value, e)
    ensures Blames(c, events, t, reading, e) && e != FromWindow(GraphViolation)
  {
    hide SubmissionOf, RefusesOffer, RefusesEdge;
  }

  lemma FirstReading(w: Window, graph: Counters, peers: seq<Counters>, steps: int)
    ensures w.graphBefore == Some(Ranks([graph] + peers)) && peers == [] ==> PeersReplayed(w, [], steps)
  {
  }

  lemma StaysPublished(t: Trace, t': Trace, offer: seq<Submission>, reading: Reading)
    requires Turned(t, t', offer, reading)
    ensures t.w.result.Some? ==> t'.w.result.Some?
  {
  }

  lemma NextTurn(c: Config, g: Counters, turns: seq<Turn>, i: nat)
    requires i < |turns|
    ensures Map(Offering(c), turns[..i + 1]) == Map(Offering(c), turns[..i]) + [Offer(c, turns[i])]
    ensures Readings(g, turns[..i + 1]) == Readings(g, turns[..i]) + [ReadingAt(After(g, turns[..i]), turns[i])]
    ensures After(g, turns[..i + 1]) == Counted(After(g, turns[..i]), turns[i])
    ensures Launched(turns[..i + 1]) == Launched(turns[..i]) + BatchesOf(turns[i])
  {
    assert turns[..i + 1][..i] == turns[..i] && turns[..i + 1] == turns[..i] + [turns[i]];
    MapSnoc(Offering(c), turns[..i], turns[i]);
    MapSnoc(BatchesOf, turns[..i], turns[i]);
    ConcatSnoc(Map(BatchesOf, turns[..i]), BatchesOf(turns[i]));
  }

  lemma MiscountKnown(first: seq<Flight<Batch>>, flights: seq<Flight<Batch>>, turns: seq<Turn>, i: nat)
    requires i < |turns| && forall f :: f in flights ==> f in first || exists k :: 0 <= k < i && turns[k].batch == Some(f.batch)
    ensures SomeMiscount(flights, [turns[i]]) ==> SomeMiscount(first, turns)
  {
    if exists f :: f in flights && Miscounts(f.batch) {
      var f :| f in flights && Miscounts(f.batch);
    } else if SomeMiscount(flights, [turns[i]]) {
      assert turns[i].batch.Some? && Miscounts(turns[i].batch.value);
    }
  }
}

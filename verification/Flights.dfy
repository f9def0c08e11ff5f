/**
 The bookkeeping that both queueing adapters share: a queue of launched but
 unprocessed results, and a dictionary from result identity to window ticket.
 */
module Flights {
  import opened Outcomes
  import opened Sorting
  import opened DecodeWindow
  import opened WindowRuns

  datatype Flight<B> = Flight(batch: B, id: nat)

  datatype Ticket = Ticket(id: Option<nat>, pure: bool)

  datatype AdapterError =
    | FromWindow(error: WindowError)
    | SchedulerPreempted
    | OverlapDisabled
    | LostTicket         // a result without a ticket entry
    | IncompleteResidency
    | NoResult

  /** The failures that only a wrong drain protocol can produce. */
  ghost predicate ProtocolFault(e: AdapterError) {
    e == LostTicket || (e.FromWindow? && (e.error == UndrainedBoundary || e.error == CrossedEdge || e.error == UnknownTicket || e.error == IncompleteWork))
  }

  function Ids<B>(queue: seq<Flight<B>>): (r: seq<nat>)
    ensures |r| == |queue|
  {
    seq(|queue|, i requires 0 <= i < |queue| => queue[i].id)
  }

  lemma IdsAppend<B(!new)>(a: seq<Flight<B>>, b: seq<Flight<B>>)
    ensures Ids(a + b) == Ids(a) + Ids(b)
  {
  }

  /** Tickets and pending work are in one-to-one correspondence with the results in flight. */
  ghost predicate InFlight(pending: map<nat, nat>, results: seq<nat>, tickets: map<nat, Ticket>, next: nat) {
    && Distinct(results)
    && (forall k :: k in tickets <==> k in results)
    && (forall k :: k in tickets ==> k < next)
    && (forall k :: k in tickets && tickets[k].id.Some? ==> tickets[k].id.value in pending)
    && (forall j, k :: j in tickets && k in tickets && j != k && tickets[j].id.Some? ==> tickets[j].id != tickets[k].id)
    && (forall t :: t in pending ==> exists k :: k in tickets && tickets[k].id == Some(t))
  }

  /** An empty queue means a drained window. */
  lemma Drained(pending: map<nat, nat>, tickets: map<nat, Ticket>, next: nat)
    requires InFlight(pending, [], tickets, next)
    ensures pending == map[]
  {
    assert tickets == map[];
  }

  lemma EndsDistinct(id: nat, rest: seq<nat>, all: seq<nat>)
    requires all == [id] + rest || all == rest + [id]
    ensures Distinct(all) <==> Distinct(rest) && id !in rest
    ensures forall k :: k in all <==> k == id || k in rest
  {
    var shift := if all == [id] + rest then 1 else 0;
    var at := if shift == 1 then 0 else |rest|;
    assert forall i :: 0 <= i < |rest| ==> rest[i] == all[i + shift];
    assert all[at] == id;
    if Distinct(all) {
      forall i, j | 0 <= i < j < |rest| ensures rest[i] != rest[j] {
        assert all[i + shift] != all[j + shift];
      }
      forall i | 0 <= i < |rest| ensures rest[i] != id {
        assert rest[i] == all[i + shift];
      }
    }
  }

  /** Queueing one more result, at either end of the queue, with the ticket the window gave for it. */
  lemma Launch(pending: map<nat, nat>, pending': map<nat, nat>, ticket: Option<nat>, results: seq<nat>, results': seq<nat>,
               tickets: map<nat, Ticket>, next: nat, pure: bool)
    requires InFlight(pending, results, tickets, next)
    requires ticket.None? ==> pending' == pending
    requires ticket.Some? ==> ticket.value !in pending && pending'.Keys == pending.Keys + {ticket.value}
    requires results' == results + [next] || results' == [next] + results
    ensures InFlight(pending', results', tickets[next := Ticket(ticket, pure)], next + 1)
  {
    var tickets' := tickets[next := Ticket(ticket, pure)];
    EndsDistinct(next, results, results');
    forall t | t in pending' ensures exists k :: k in tickets' && tickets'[k].id == Some(t) {
      if t in pending {
        var k :| k in tickets && tickets[k].id == Some(t);
        assert tickets'[k].id == Some(t);
      } else {
        assert tickets'[next].id == Some(t);
      }
    }
  }

  lemma LaunchPending(c: Config, w: Window, subs: seq<Submission>, s: Submission)
    requires Inv(c, w, subs) && SubmitStep(c, w, s).Ok?
    ensures var (w', ticket) := SubmitStep(c, w, s).value;
      if w.result.Some? then ticket.None? && w'.pending == w.pending
      else ticket == Some(w.submitted) && w.submitted !in w.pending && w'.pending == w.pending[w.submitted := |w.records|]
  {
    hide Eligible, SortedIds, OrderedContexts, OrderedIds, Advance, Warming, Measuring, Describes, Published;
    if w.result.None? {
      SubmitBooks(c, w, s);
    }
  }

  /** Processing one result, from either end of the queue. */
  lemma Land(pending: map<nat, nat>, pending': map<nat, nat>, id: nat, results: seq<nat>, results': seq<nat>,
             tickets: map<nat, Ticket>, next: nat)
    requires InFlight(pending, results, tickets, next) && (results == [id] + results' || results == results' + [id])
    requires id in tickets
    requires pending' == if tickets[id].id.Some? then pending - {tickets[id].id.value} else pending
    ensures InFlight(pending', results', tickets - {id}, next)
  {
    var tickets' := tickets - {id};
    EndsDistinct(id, results', results);
    hide Distinct;
    forall t | t in pending' ensures exists k :: k in tickets' && tickets'[k].id == Some(t) {
      var k :| k in tickets && tickets[k].id == Some(t);
      assert k != id;
      assert tickets'[k].id == Some(t);
    }
  }

  /** A known ticket is never reported as unknown: only a decode row with another token count is refused. */
  lemma KnownTicket(c: Config, w: Window, subs: seq<Submission>, ticket: Option<nat>, n: Option<int>)
    requires Inv(c, w, subs) && (ticket.Some? ==> ticket.value in w.pending)
    ensures ticket.Some? ==> ticket.value < |subs|
    ensures CompleteStep(w, ticket, n).Err? <==>
      ticket.Some? && subs[ticket.value].isDecode && n != Some(subs[ticket.value].tokens)
    ensures CompleteStep(w, ticket, n).Err? ==> CompleteStep(w, ticket, n).error == TokenMismatch
  {
    hide Warming, Measuring, Published, OrderedIds, OrderedContexts;
    if ticket.Some? {
      assert Describes(w.records[ticket.value], ticket.value, subs[ticket.value]);
    }
  }

  lemma SubmitErrors(c: Config, w: Window, s: Submission)
    requires !NeedsBoundary(c, w)
    ensures SubmitStep(c, w, s).Err? ==>
      !ProtocolFault(FromWindow(SubmitStep(c, w, s).error)) && SubmitStep(c, w, s).error != GraphViolation && SubmitStep(c, w, s).error != TokenMismatch
  {
    hide Eligible, SortedIds, OrderedContexts, OrderedIds, Advance;
  }

  /** What a submission between edges yields: an error of its own, or the next ticket unless a result stands. */
  lemma SubmitOutcome(c: Config, w: Window, subs: seq<Submission>, s: Submission)
    requires Inv(c, w, subs) && !NeedsBoundary(c, w)
    ensures var r := SubmitStep(c, w, s);
      && (r.Err? ==> !ProtocolFault(FromWindow(r.error)) && r.error != GraphViolation && r.error != TokenMismatch)
      && (r.Ok? && w.result.Some? ==> r.value.1.None? && r.value.0.pending == w.pending)
      && (r.Ok? && w.result.None? ==>
            r.value.1 == Some(|subs|) && |subs| !in w.pending && r.value.0.pending.Keys == w.pending.Keys + {|subs|})
  {
    hide SubmitStep, Inv;
    SubmitErrors(c, w, s);
    if SubmitStep(c, w, s).Ok? {
      LaunchPending(c, w, subs, s);
      TicketIsPosition(c, w, subs);
    }
  }

  lemma TicketIsPosition(c: Config, w: Window, subs: seq<Submission>)
    requires Inv(c, w, subs)
    ensures w.submitted == |subs|
  {
    hide Warming, Measuring, Published;
  }

  /** A drained edge can only be refused for its readings. */
  lemma EdgeErrors(c: Config, w: Window, subs: seq<Submission>, now: real, graphs: GraphStats)
    requires Inv(c, w, subs) && w.pending == map[]
    ensures BoundaryStep(c, w, now, graphs).Err? ==> !ProtocolFault(FromWindow(BoundaryStep(c, w, now, graphs).error))
  {
    hide Inv, BaseBoundary;
    NeverIncomplete(c, w, subs, now, graphs);
  }

  // ---------- whose ticket, whose tokens ----------

  /** The ticket kept for a result is the one that was issued for its own batch. */
  ghost predicate Holds<B(!new)>(submission: B -> Submission, tickets: map<nat, Ticket>, f: Flight<B>, batches: seq<B>) {
    && f.id in tickets
    && tickets[f.id].pure == submission(f.batch).isDecode
    && (tickets[f.id].id.Some? ==> tickets[f.id].id.value < |batches| && batches[tickets[f.id].id.value] == f.batch)
  }

  /** Submission k is that of batch k, and every finished decode batch produced what was submitted for it. */
  ghost predicate Delivered<B(!new)>(submission: B -> Submission, produced: B -> int, subs: seq<Submission>, pending: map<nat, nat>,
                                     batches: seq<B>) {
    && |batches| == |subs|
    && (forall k :: 0 <= k < |subs| ==> subs[k] == submission(batches[k]))
    && (forall k :: 0 <= k < |subs| && k !in pending && subs[k].isDecode ==> produced(batches[k]) == subs[k].tokens)
  }

  /** The whole bookkeeping of an adapter. */
  ghost predicate Tallied<B(!new)>(submission: B -> Submission, produced: B -> int, subs: seq<Submission>, pending: map<nat, nat>,
                                   tickets: map<nat, Ticket>, next: nat, flights: seq<Flight<B>>, batches: seq<B>) {
    && InFlight(pending, Ids(flights), tickets, next)
    && (forall i :: 0 <= i < |flights| ==> Holds(submission, tickets, flights[i], batches))
    && Delivered(submission, produced, subs, pending, batches)
  }

  lemma NothingTallied<B(!new)>(submission: B -> Submission, produced: B -> int)
    ensures Tallied(submission, produced, [], map[], map[], 0, [], [])
  {
  }

  lemma TallyDrained<B(!new)>(submission: B -> Submission, produced: B -> int, subs: seq<Submission>, pending: map<nat, nat>,
                              tickets: map<nat, Ticket>, next: nat, batches: seq<B>)
    requires Tallied(submission, produced, subs, pending, tickets, next, [], batches)
    ensures pending == map[]
  {
    assert Ids<B>([]) == [];
    Drained(pending, tickets, next);
  }

  lemma EarlierId(pending: map<nat, nat>, results: seq<nat>, tickets: map<nat, Ticket>, next: nat, k: nat)
    requires InFlight(pending, results, tickets, next) && k < |results|
    ensures results[k] < next
  {
    assert results[k] in results;
  }

  lemma NewcomerHolds<B(!new)>(submission: B -> Submission, tickets: map<nat, Ticket>, f: Flight<B>, batches: seq<B>, ticket: Option<nat>)
    requires ticket.Some? ==> ticket.value == |batches|
    ensures Holds(submission, tickets[f.id := Ticket(ticket, submission(f.batch).isDecode)], f,
                  if ticket.Some? then batches + [f.batch] else batches)
  {
  }

  lemma StillHolds<B(!new)>(submission: B -> Submission, tickets: map<nat, Ticket>, f: Flight<B>, batches: seq<B>, next: nat, t: Ticket, batches': seq<B>)
    requires Holds(submission, tickets, f, batches) && f.id != next && batches <= batches'
    ensures Holds(submission, tickets[next := t], f, batches')
  {
  }

  lemma DeliveredNext<B(!new)>(submission: B -> Submission, produced: B -> int, subs: seq<Submission>, pending: map<nat, nat>,
                               pending': map<nat, nat>, batches: seq<B>, b: B)
    requires Delivered(submission, produced, subs, pending, batches) && pending'.Keys == pending.Keys + {|subs|}
    ensures Delivered(submission, produced, subs + [submission(b)], pending', batches + [b])
  {
  }

  lemma LaunchHolds<B(!new)>(submission: B -> Submission, produced: B -> int, subs: seq<Submission>, pending: map<nat, nat>,
                             tickets: map<nat, Ticket>, next: nat, flights: seq<Flight<B>>, batches: seq<B>, f: Flight<B>,
                             ticket: Option<nat>, b: B)
    requires Tallied(submission, produced, subs, pending, tickets, next, flights, batches)
    requires ticket.Some? ==> ticket.value == |subs|
    requires f in flights || f == Flight(b, next)
    ensures Holds(submission, tickets[next := Ticket(ticket, submission(b).isDecode)], f, if ticket.Some? then batches + [b] else batches)
  {
    hide Holds, InFlight;
    if f in flights {
      var k :| 0 <= k < |flights| && flights[k] == f;
      EarlierId(pending, Ids(flights), tickets, next, k);
      StillHolds(submission, tickets, f, batches, next, Ticket(ticket, submission(b).isDecode), if ticket.Some? then batches + [b] else batches);
    } else {
      NewcomerHolds(submission, tickets, f, batches, ticket);
    }
  }

  /** Queueing one more result, at either end, with the ticket that the window issued for it. */
  lemma TallyLaunch<B(!new)>(submission: B -> Submission, produced: B -> int, subs: seq<Submission>, pending: map<nat, nat>,
                             pending': map<nat, nat>, tickets: map<nat, Ticket>, next: nat, flights: seq<Flight<B>>,
                             flights': seq<Flight<B>>, batches: seq<B>, b: B, ticket: Option<nat>)
    requires Tallied(submission, produced, subs, pending, tickets, next, flights, batches)
    requires ticket.None? ==> pending' == pending
    requires ticket.Some? ==> ticket.value == |subs| && |subs| !in pending && pending'.Keys == pending.Keys + {|subs|}
    requires flights' == flights + [Flight(b, next)] || flights' == [Flight(b, next)] + flights
    ensures Tallied(submission, produced, if ticket.Some? then subs + [submission(b)] else subs, pending',
                    tickets[next := Ticket(ticket, submission(b).isDecode)], next + 1, flights',
                    if ticket.Some? then batches + [b] else batches)
  {
    hide Holds, InFlight, Delivered;
    var newest := [Flight(b, next)];
    IdsAppend(flights, newest);
    IdsAppend(newest, flights);
    assert Ids(newest) == [next];
    Launch(pending, pending', ticket, Ids(flights), Ids(flights'), tickets, next, submission(b).isDecode);
    forall i | 0 <= i < |flights'|
      ensures Holds(submission, tickets[next := Ticket(ticket, submission(b).isDecode)], flights'[i], if ticket.Some? then batches + [b] else batches)
    {
      assert flights'[i] in flights || flights'[i] == Flight(b, next);
      LaunchHolds(submission, produced, subs, pending, tickets, next, flights, batches, flights'[i], ticket, b);
    }
    if ticket.Some? {
      DeliveredNext(submission, produced, subs, pending, pending', batches, b);
    }
  }

  /** What is known of a result in flight. */
  lemma TallyFlight<B(!new)>(submission: B -> Submission, produced: B -> int, subs: seq<Submission>, pending: map<nat, nat>,
                             tickets: map<nat, Ticket>, next: nat, flights: seq<Flight<B>>, batches: seq<B>, f: Flight<B>)
    requires Tallied(submission, produced, subs, pending, tickets, next, flights, batches) && f in flights
    ensures f.id in tickets && tickets[f.id].pure == submission(f.batch).isDecode
    ensures tickets[f.id].id.Some? ==>
      tickets[f.id].id.value in pending && tickets[f.id].id.value < |subs| && subs[tickets[f.id].id.value] == submission(f.batch)
  {
    var k :| 0 <= k < |flights| && flights[k] == f;
    assert Holds(submission, tickets, flights[k], batches);
  }

  /** Processing one result, from either end, whose batch produced what was submitted for it. */
  lemma TallyLand<B(!new)>(submission: B -> Submission, produced: B -> int, subs: seq<Submission>, pending: map<nat, nat>,
                           pending': map<nat, nat>, tickets: map<nat, Ticket>, next: nat, f: Flight<B>, flights: seq<Flight<B>>,
                           flights': seq<Flight<B>>, batches: seq<B>)
    requires Tallied(submission, produced, subs, pending, tickets, next, flights, batches)
    requires flights == [f] + flights' || flights == flights' + [f]
    requires f.id in tickets && pending' == if tickets[f.id].id.Some? then pending - {tickets[f.id].id.value} else pending
    requires tickets[f.id].id.Some? && submission(f.batch).isDecode ==> produced(f.batch) == submission(f.batch).tokens
    ensures Tallied(submission, produced, subs, pending', tickets - {f.id}, next, flights', batches)
  {
    hide InFlight;
    IdsAppend([f], flights');
    IdsAppend(flights', [f]);
    assert Ids([f]) == [f.id];
    Land(pending, pending', f.id, Ids(flights), Ids(flights'), tickets, next);
    assert f in flights by { assert flights[0] == f || flights[|flights'|] == f; }
    TallyFlight(submission, produced, subs, pending, tickets, next, flights, batches, f);
    forall i | 0 <= i < |flights'| ensures Holds(submission, tickets - {f.id}, flights'[i], batches) {
      assert flights'[i] in flights;
      OtherId(pending, tickets, next, f, flights, flights', i);
    }
    LandDelivered(submission, produced, subs, pending, pending', batches, tickets[f.id].id, f.batch);
  }

  lemma OtherId<B(!new)>(pending: map<nat, nat>, tickets: map<nat, Ticket>, next: nat, f: Flight<B>, flights: seq<Flight<B>>,
                         flights': seq<Flight<B>>, i: nat)
    requires InFlight(pending, Ids(flights), tickets, next) && i < |flights'|
    requires flights == [f] + flights' || flights == flights' + [f]
    ensures flights'[i].id != f.id
  {
    IdsAppend([f], flights');
    IdsAppend(flights', [f]);
    EndsDistinct(f.id, Ids(flights'), Ids(flights));
    assert Ids(flights')[i] == flights'[i].id;
  }

  lemma LandDelivered<B(!new)>(submission: B -> Submission, produced: B -> int, subs: seq<Submission>, pending: map<nat, nat>,
                               pending': map<nat, nat>, batches: seq<B>, ticket: Option<nat>, b: B)
    requires Delivered(submission, produced, subs, pending, batches)
    requires pending' == if ticket.Some? then pending - {ticket.value} else pending
    requires ticket.Some? ==> ticket.value < |batches| && batches[ticket.value] == b
    requires ticket.Some? && submission(b).isDecode ==> produced(b) == submission(b).tokens
    ensures Delivered(submission, produced, subs, pending', batches)
  {
  }

  /** The window refuses the completion of a flight exactly if its own batch decodes and another count is reported. */
  lemma FlightOutcome<B(!new)>(submission: B -> Submission, produced: B -> int, c: Config, w: Window, subs: seq<Submission>,
                               tickets: map<nat, Ticket>, next: nat, flights: seq<Flight<B>>, batches: seq<B>, f: Flight<B>, n: Option<int>)
    requires Inv(c, w, subs) && f in flights
    requires Tallied(submission, produced, subs, w.pending, tickets, next, flights, batches)
    ensures f.id in tickets && tickets[f.id].pure == submission(f.batch).isDecode
    ensures CompleteStep(w, tickets[f.id].id, n).Err? <==>
      tickets[f.id].id.Some? && submission(f.batch).isDecode && n != Some(submission(f.batch).tokens)
    ensures CompleteStep(w, tickets[f.id].id, n).Err? ==> CompleteStep(w, tickets[f.id].id, n).error == TokenMismatch
  {
    hide Inv, Tallied, CompleteStep;
    TallyFlight(submission, produced, subs, w.pending, tickets, next, flights, batches, f);
    KnownTicket(c, w, subs, tickets[f.id].id, n);
  }

  // ---------- what a result was produced by ----------

  /** Every measured submission is that of a decode batch that produced one token for each of the requests. */
  ghost predicate FullyProduced<B(!new)>(submission: B -> Submission, produced: B -> int, c: Config, subs: seq<Submission>, batches: seq<B>) {
    && |batches| == |subs|
    && forall k :: 0 <= k < |subs| && |subs| - c.targetSteps <= k ==>
         subs[k] == submission(batches[k]) && subs[k].isDecode && produced(batches[k]) == c.concurrency
  }

  lemma ResultProduced<B(!new)>(submission: B -> Submission, produced: B -> int, c: Config, w: Window, subs: seq<Submission>, batches: seq<B>)
    requires Vouches(c, w, subs) && Delivered(submission, produced, subs, w.pending, batches)
    ensures FullyProduced(submission, produced, c, subs, batches)
  {
    hide TokensApart;
  }
}

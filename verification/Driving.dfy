/**
 What an adapter does to its window, turn by turn: the edges it closed and with
 which readings, the submissions it passed on, and whose refusal ended the run.
 */
module Driving {
  import opened Outcomes
  import opened Sorting
  import opened DecodeWindow
  import opened WindowRuns

  datatype Reading = Reading(now: real, graphs: GraphStats)

  /**
   One turn: at most one edge closes, with this turn's readings, and then everything the turn
   offers is submitted, unless a result stands.  A result appears only by closing an edge.
   */
  ghost predicate Turned(t: Trace, t': Trace, offer: seq<Submission>, reading: Reading) {
    && (t'.edges == t.edges || t'.edges == t.edges + [Edge(|t.subs|, reading.now, reading.graphs)])
    && t'.subs == t.subs + (if t'.w.result.Some? then [] else offer)
    && (t.w.result.Some? ==> t'.w.result == t.w.result && t'.edges == t.edges)
    && (t.w.result.None? && t'.w.result.Some? ==> t'.edges != t.edges)
  }

  lemma BoundaryTurns(c: Config, t: Trace, t': Trace, reading: Reading)
    requires BoundaryStep(c, t.w, reading.now, reading.graphs) == Ok(t'.w) && t'.subs == t.subs
    requires t'.edges == if NeedsBoundary(c, t.w) then t.edges + [Edge(|t.subs|, reading.now, reading.graphs)] else t.edges
    ensures Turned(t, t', [], reading)
  {
    hide BaseBoundary, Summarize;
    assert t.subs + [] == t.subs;
  }

  /** A turn that first closed its edge and then submitted its offer. */
  lemma TurnedThen(t: Trace, m: Trace, t': Trace, offer: seq<Submission>, reading: Reading)
    requires Turned(t, m, [], reading) && t'.edges == m.edges && t'.w.result == m.w.result
    requires t'.subs == m.subs + (if t'.w.result.Some? then [] else offer)
    ensures Turned(t, t', offer, reading)
  {
    assert t.subs + [] == t.subs && m.subs + [] == m.subs;
  }

  /** The edge that turn j closed, before submitting anything itself. */
  ghost function EdgeAt(t: Trace, offers: seq<seq<Submission>>, readings: seq<Reading>, j: nat): Edge
    requires j < |offers| == |readings|
  {
    Edge(|t.subs| + |Concat(offers[..j])|, readings[j].now, readings[j].graphs)
  }

  /** The edge is the one that some turn closed. */
  ghost predicate SomeTurns(t: Trace, offers: seq<seq<Submission>>, readings: seq<Reading>, edge: Edge)
    requires |offers| == |readings|
  {
    exists j: nat :: j < |offers| && edge == EdgeAt(t, offers, readings, j)
  }

  /** The offers of the first `ran` turns were submitted, nothing else was, and every new edge is some turn's. */
  ghost predicate FollowedFor(t: Trace, t': Trace, offers: seq<seq<Submission>>, readings: seq<Reading>, ran: nat) {
    && ran <= |offers| == |readings|
    && t'.subs == t.subs + Concat(offers[..ran])
    && (t'.w.result.None? ==> ran == |offers|)
    && (t.w.result.Some? ==> ran == 0 && t'.edges == t.edges && t'.w.result == t.w.result)
    && t.edges <= t'.edges
    && (forall e :: |t.edges| <= e < |t'.edges| ==> SomeTurns(t, offers, readings, t'.edges[e]))
    && (t.w.result.None? && t'.w.result.Some? ==>
          ran < |offers| && t'.edges != [] && t'.edges[|t'.edges| - 1] == EdgeAt(t, offers, readings, ran))
  }

  /** Everything offered was submitted in order, up to the turn whose readings closed the last edge. */
  ghost predicate Followed(t: Trace, t': Trace, offers: seq<seq<Submission>>, readings: seq<Reading>) {
    exists ran: nat :: FollowedFor(t, t', offers, readings, ran)
  }

  lemma FollowNothing(t: Trace)
    ensures Followed(t, t, [], [])
  {
    assert t.subs == t.subs + [];
    assert FollowedFor(t, t, [], [], 0);
  }

  lemma SameEdge(t: Trace, offers: seq<seq<Submission>>, readings: seq<Reading>, os: seq<seq<Submission>>, rs: seq<Reading>, j: nat)
    requires j < |offers| == |readings| && offers <= os && readings <= rs && |os| == |rs|
    ensures EdgeAt(t, os, rs, j) == EdgeAt(t, offers, readings, j)
  {
    assert os[..j] == offers[..j];
  }

  lemma OfferedPrefix(offers: seq<seq<Submission>>, offer: seq<Submission>, ran: nat)
    requires ran <= |offers|
    ensures Concat((offers + [offer])[..ran]) == Concat(offers[..ran])
    ensures ran == |offers| ==> Concat((offers + [offer])[..ran + 1]) == Concat(offers[..ran]) + offer
  {
    assert (offers + [offer])[..ran] == offers[..ran];
    if ran == |offers| {
      assert (offers + [offer])[..ran + 1] == offers + [offer] && offers[..ran] == offers;
    }
  }

  lemma FollowNext(t: Trace, m: Trace, t': Trace, offers: seq<seq<Submission>>, readings: seq<Reading>, offer: seq<Submission>, reading: Reading)
    requires Followed(t, m, offers, readings) && Turned(m, t', offer, reading)
    ensures Followed(t, t', offers + [offer], readings + [reading])
  {
    var ran: nat :| FollowedFor(t, m, offers, readings, ran);
    var os, rs, n := offers + [offer], readings + [reading], |offers|;
    var ran': nat := if t'.w.result.Some? then ran else n + 1;
    hide Concat, SomeTurns, EdgeAt;
    OfferedPrefix(offers, offer, ran);
    if t'.edges != m.edges {
      LastEdge(t, m, offers, readings, offer, reading);
    }
    if ran < n {
      SameEdge(t, offers, readings, os, rs, ran);
    }
    FollowEdges(t, m, t', offers, readings, offer, reading, ran);
    assert FollowedFor(t, t', os, rs, ran');
  }

  lemma FollowEdges(t: Trace, m: Trace, t': Trace, offers: seq<seq<Submission>>, readings: seq<Reading>,
                    offer: seq<Submission>, reading: Reading, ran: nat)
    requires FollowedFor(t, m, offers, readings, ran) && Turned(m, t', offer, reading)
    ensures forall e :: |t.edges| <= e < |t'.edges| ==> SomeTurns(t, offers + [offer], readings + [reading], t'.edges[e])
  {
    hide Concat, SomeTurns, EdgeAt;
    if t'.edges != m.edges {
      LastEdge(t, m, offers, readings, offer, reading);
    }
    forall e | |t.edges| <= e < |t'.edges| ensures SomeTurns(t, offers + [offer], readings + [reading], t'.edges[e]) {
      if e < |m.edges| {
        assert t'.edges[e] == m.edges[e];
        StillSomeTurns(t, offers, readings, offer, reading, m.edges[e]);
      }
    }
  }

  lemma LastEdge(t: Trace, m: Trace, offers: seq<seq<Submission>>, readings: seq<Reading>, offer: seq<Submission>, reading: Reading)
    requires FollowedFor(t, m, offers, readings, |offers|)
    ensures EdgeAt(t, offers + [offer], readings + [reading], |offers|) == Edge(|m.subs|, reading.now, reading.graphs)
    ensures SomeTurns(t, offers + [offer], readings + [reading], Edge(|m.subs|, reading.now, reading.graphs))
  {
    hide Concat;
    assert (offers + [offer])[..|offers|] == offers == offers[..|offers|];
  }

  lemma StillSomeTurns(t: Trace, offers: seq<seq<Submission>>, readings: seq<Reading>, offer: seq<Submission>, reading: Reading, edge: Edge)
    requires |offers| == |readings| && SomeTurns(t, offers, readings, edge)
    ensures SomeTurns(t, offers + [offer], readings + [reading], edge)
  {
    var j: nat :| j < |offers| && edge == EdgeAt(t, offers, readings, j);
    SameEdge(t, offers, readings, offers + [offer], readings + [reading], j);
  }

  // ---------- what was run ----------

  /** The batches run since `before` are a prefix of all that the turns chose, and all of them unless stopped. */
  ghost predicate Supplied<B>(before: seq<B>, after: seq<B>, all: seq<B>, stopped: bool) {
    before <= after <= before + all && (!stopped ==> after == before + all)
  }

  lemma SupplyNothing<B>(before: seq<B>, stopped: bool)
    ensures Supplied(before, before, [], stopped)
  {
    assert before + [] == before;
  }

  lemma SupplyNext<B>(before: seq<B>, m: seq<B>, after: seq<B>, all: seq<B>, more: seq<B>, stopped: bool, stopped': bool)
    requires Supplied(before, m, all, stopped) && (stopped ==> stopped')
    requires after == m + (if stopped' then [] else more)
    ensures Supplied(before, after, all + more, stopped')
  {
    if stopped' {
      assert after == m;
      assert before + (all + more) == (before + all) + more;
    } else {
      assert after == before + (all + more);
    }
  }

  // ---------- whose refusal ended a run ----------

  ghost predicate RefusesEdge(c: Config, events: seq<Event>, reading: Reading, e: WindowError) {
    Run(c, events + [Boundary(reading.now, reading.graphs)]) == Err(e)
  }

  ghost predicate RefusesOffer(c: Config, events: seq<Event>, offer: seq<Submission>, e: WindowError) {
    exists s :: s in offer && Run(c, events + [Submit(s)]) == Err(e)
  }

  /** The window refused an edge with this turn's readings, or something this turn offers. */
  ghost predicate Refuses(c: Config, events: seq<Event>, offer: seq<Submission>, reading: Reading, e: WindowError) {
    RefusesEdge(c, events, reading, e) || RefusesOffer(c, events, offer, e)
  }
}

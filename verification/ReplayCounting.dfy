/**
 Counting graph replays beside the window: between the two edges every batch is a
 decode batch, so the counters read at the edges can disagree with the window's
 step count only through a capture or an eager decode.
 */
module ReplayCounting {
  import opened Outcomes
  import opened DecodeWindow
  import opened WindowRuns

  /** The counters after one batch: a decode batch replays a graph or runs eagerly. */
  function RunCounted(g: Counters, decode: bool, graphed: bool): Counters {
    if !decode then g
    else if graphed then g.(replays := g.replays + 1)
    else g.(eagerDecodes := g.eagerDecodes + 1)
  }

  /**
   `captured` and `eager` say how many captures and eager decodes there were since the first edge.
   While measuring, the counters are those read there plus exactly that and the replays of all
   other steps; a published result saw neither.
   */
  ghost predicate Agrees(w: Window, graph: Counters, captured: nat, eager: nat) {
    && (w.result.Some? ==> captured == eager == 0)
    && (w.started.Some? && w.result.None? ==>
          && w.graphBefore.Some? && w.graphBefore.value.Ranks? && w.graphBefore.value.ranks != []
          && var g := w.graphBefore.value.ranks[0];
             graph == Counters(g.captures + captured, g.replays + w.steps - eager, g.eagerDecodes + eager))
  }

  /** Every other rank replayed one graph per step and did nothing else. */
  ghost predicate PeersReplayed(w: Window, peers: seq<Counters>, steps: int) {
    && w.graphBefore.Some? && w.graphBefore.value.Ranks? && |w.graphBefore.value.ranks| == |peers| + 1
    && forall k :: 0 <= k < |peers| ==>
         var g := w.graphBefore.value.ranks[k + 1]; peers[k] == Counters(g.captures, g.replays + steps, g.eagerDecodes)
  }

  lemma SameAgreement(w: Window, w': Window, graph: Counters, captured: nat, eager: nat, peers: seq<Counters>, steps: int)
    requires w'.started == w.started && w'.graphBefore == w.graphBefore && w'.steps == w.steps && w'.result == w.result
    ensures Agrees(w', graph, captured, eager) == Agrees(w, graph, captured, eager)
    ensures PeersReplayed(w', peers, steps) == PeersReplayed(w, peers, steps)
  {
  }

  lemma StartedStep(c: Config, w: Window, s: Submission)
    requires SubmitStep(c, w, s).Ok? && w.result.None? && w.started.Some?
    ensures s.isDecode && SubmitStep(c, w, s).value.0.steps == w.steps + 1
  {
    hide SortedIds, OrderedIds, OrderedContexts, Advance;
  }

  lemma SubmitAgrees(c: Config, w: Window, s: Submission, graph: Counters, captured: nat, eager: nat, graphed: bool)
    requires SubmitStep(c, w, s).Ok? && Agrees(w, graph, captured, eager)
    ensures Agrees(SubmitStep(c, w, s).value.0, RunCounted(graph, s.isDecode, graphed), captured,
                   if w.result.None? && s.isDecode && !graphed then eager + 1 else eager)
  {
    hide SubmitStep;
    if w.result.None? {
      SubmitBooks(c, w, s);
      if w.started.Some? {
        StartedStep(c, w, s);
      }
    } else {
      SubmitAfterResult(c, w, s);
    }
  }

  lemma SubmitAfterResult(c: Config, w: Window, s: Submission)
    requires w.result.Some?
    ensures SubmitStep(c, w, s) == Ok((w, None))
  {
  }

  lemma PeersFollow(a: seq<Counters>, graph: Counters, peers: seq<Counters>, steps: int)
    requires OnlyReplays(Ranks(a), Ranks([graph] + peers), steps)
    ensures a != [] && graph == Counters(a[0].captures, a[0].replays + steps, a[0].eagerDecodes) && |a| == |peers| + 1
    ensures forall k :: 0 <= k < |peers| ==> peers[k] == Counters(a[k + 1].captures, a[k + 1].replays + steps, a[k + 1].eagerDecodes)
  {
    var b := [graph] + peers;
    assert b[0] == graph;
    forall k | 0 <= k < |peers| ensures peers[k] == Counters(a[k + 1].captures, a[k + 1].replays + steps, a[k + 1].eagerDecodes) {
      assert b[k + 1] == peers[k];
    }
  }

  lemma AllFollow(a: seq<Counters>, graph: Counters, peers: seq<Counters>, steps: int)
    requires a != [] && graph == Counters(a[0].captures, a[0].replays + steps, a[0].eagerDecodes) && |a| == |peers| + 1
    requires forall k :: 0 <= k < |peers| ==> peers[k] == Counters(a[k + 1].captures, a[k + 1].replays + steps, a[k + 1].eagerDecodes)
    ensures OnlyReplays(Ranks(a), Ranks([graph] + peers), steps)
  {
    var b := [graph] + peers;
    forall i | 0 <= i < |a| ensures b[i] == Counters(a[i].captures, a[i].replays + steps, a[i].eagerDecodes) {
      if i > 0 {
        assert b[i] == peers[i - 1];
      }
    }
  }

  lemma ReplaysSplit(w: Window, graph: Counters, peers: seq<Counters>, captured: nat, eager: nat, steps: int)
    requires Agrees(w, graph, captured, eager) && w.started.Some? && w.result.None? && w.steps == steps
    ensures OnlyReplays(w.graphBefore.value, Ranks([graph] + peers), steps) <==>
      captured == eager == 0 && PeersReplayed(w, peers, steps)
  {
    hide OnlyReplays;
    if OnlyReplays(w.graphBefore.value, Ranks([graph] + peers), steps) {
      PeersFollow(w.graphBefore.value.ranks, graph, peers, steps);
    }
    if captured == eager == 0 && PeersReplayed(w, peers, steps) {
      AllFollow(w.graphBefore.value.ranks, graph, peers, steps);
    }
  }

  /** An edge starts the count, or is refused for its counters exactly if there was a capture, an eager decode or a deviating peer. */
  lemma EdgeAgrees(c: Config, w: Window, subs: seq<Submission>, now: real, graph: Counters, peers: seq<Counters>, captured: nat, eager: nat)
    requires Inv(c, w, subs) && NeedsBoundary(c, w) && w.pending == map[] && Agrees(w, graph, captured, eager)
    ensures var r := BoundaryStep(c, w, now, Ranks([graph] + peers));
      if w.started.None? then r.Ok? && Agrees(r.value, graph, 0, 0) && r.value.result.None?
      else
        && (r == Err(GraphViolation) <==> !(captured == eager == 0 && PeersReplayed(w, peers, c.targetSteps)))
        && (r.Ok? ==> r.value.result.Some? && Agrees(r.value, graph, captured, eager))
  {
    var graphs := Ranks([graph] + peers);
    if w.started.None? {
      hide Inv;
      NoEdgeAtStart(c, w, subs) by { assert Inv(c, w, subs); }
      FirstEdgeStep(c, w, now, graphs);
    } else {
      hide Inv, BaseBoundary, Summarize, OnlyReplays, PeersReplayed;
      ReplaysSplit(w, graph, peers, captured, eager, c.targetSteps);
      SecondEdgeVerdict(c, w, subs, now, graphs);
    }
  }

  /** What the readings at a drained second edge decide. */
  lemma SecondEdgeVerdict(c: Config, w: Window, subs: seq<Submission>, now: real, graphs: GraphStats)
    requires Inv(c, w, subs) && NeedsBoundary(c, w) && w.started.Some? && w.pending == map[]
    ensures w.graphBefore.Some?
    ensures BoundaryStep(c, w, now, graphs) == Err(GraphViolation) <==> !OnlyReplays(w.graphBefore.value, graphs, c.targetSteps)
    ensures BoundaryStep(c, w, now, graphs).Ok? ==> BoundaryStep(c, w, now, graphs).value.result.Some?
  {
    hide Inv, OnlyReplays, GraphDelta, StageThroughput, Summarize;
    SecondEdgeState(c, w, subs);
    SecondEdgeSummarizes(c, w, subs, now, graphs);
    GraphDeltaAccepts(w.graphBefore.value, graphs, c.targetSteps);
    if BoundaryStep(c, w, now, graphs).Ok? {
      SecondEdgePublishes(c, w, subs, now, graphs);
    }
  }
}

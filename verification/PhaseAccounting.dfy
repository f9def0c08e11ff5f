/** Scheduler phase accounting: one pass over host step returns, against maximal runs of equal phase. */
module PhaseAccounting {
  import opened Arithmetic
  import opened Outcomes

  datatype Phase = Prefill | Decode

  /** One observation; `None` is a step whose phase is neither prefill nor decode. */
  datatype Step = Step(elapsed: real, phase: Option<Phase>)

  datatype Slice = Slice(phase: Phase, seconds: real)

  datatype PhaseError = NonMonotonicTime

  datatype Report = Report(switches: nat, prefillRuns: seq<real>, decodeRuns: seq<real>)

  // ---------- the specification ----------

  /** The time at the end of the observations. */
  function Last(steps: seq<Step>): real {
    if steps == [] then 0.0 else steps[|steps| - 1].elapsed
  }

  /** Elapsed times start at zero or later and never decrease. */
  ghost predicate Monotonic(steps: seq<Step>) {
    forall i: nat :: i < |steps| ==> Previous(steps, i) <= steps[i].elapsed
  }

  /** The time before step i. */
  ghost function Previous(steps: seq<Step>, i: nat): real
    requires i < |steps|
  {
    if i == 0 then 0.0 else steps[i - 1].elapsed
  }

  /** The phased steps with the time each took; unphased steps are dropped, their time with them. */
  function Slices(steps: seq<Step>): seq<Slice> {
    if steps == [] then []
    else
      var n := |steps| - 1;
      match steps[n].phase
      case None => Slices(steps[..n])
      case Some(p) => Slices(steps[..n]) + [Slice(p, steps[n].elapsed - Last(steps[..n]))]
  }

  function Unphased(steps: seq<Step>): real {
    if steps == [] then 0.0
    else
      var n := |steps| - 1;
      Unphased(steps[..n]) + (if steps[n].phase.None? then steps[n].elapsed - Last(steps[..n]) else 0.0)
  }

  function Seconds(slices: seq<Slice>): real {
    if slices == [] then 0.0 else Seconds(slices[..|slices| - 1]) + slices[|slices| - 1].seconds
  }

  /** The length of the longest prefix in one phase. */
  function Stretch(slices: seq<Slice>): (k: nat)
    requires slices != []
    ensures 1 <= k <= |slices|
    ensures forall i :: 0 <= i < k ==> slices[i].phase == slices[0].phase
    ensures k < |slices| ==> slices[k].phase != slices[0].phase
  {
    if |slices| == 1 || slices[1].phase != slices[0].phase then 1 else 1 + Stretch(slices[1..])
  }

  /** Maximal runs: cut off the longest prefix in one phase, and so on. */
  function Runs(slices: seq<Slice>): seq<Slice> {
    if slices == [] then []
    else
      var k := Stretch(slices);
      [Slice(slices[0].phase, Seconds(slices[..k]))] + Runs(slices[k..])
  }

  function Times(runs: seq<Slice>, p: Phase): seq<real> {
    if runs == [] then []
    else
      var last := runs[|runs| - 1];
      Times(runs[..|runs| - 1], p) + (if last.phase == p then [last.seconds] else [])
  }

  // ---------- runs grow at their end ----------

  lemma {:induction false} StretchSnoc(s: seq<Slice>, x: Slice)
    requires s != []
    ensures Stretch(s + [x]) == if Stretch(s) == |s| && x.phase == s[0].phase then |s| + 1 else Stretch(s)
  {
    if |s| > 1 && s[1].phase == s[0].phase {
      assert (s + [x])[1..] == s[1..] + [x];
      StretchSnoc(s[1..], x);
    }
  }

  ghost function Extend(runs: seq<Slice>, x: Slice): seq<Slice> {
    if runs != [] && runs[|runs| - 1].phase == x.phase then
      runs[..|runs| - 1] + [Slice(x.phase, runs[|runs| - 1].seconds + x.seconds)]
    else runs + [x]
  }

  lemma SecondsSnoc(s: seq<Slice>, x: Slice)
    ensures Seconds(s + [x]) == Seconds(s) + x.seconds
  {
    assert (s + [x])[..|s|] == s;
  }

  lemma RunsUnfold(s: seq<Slice>, k: nat)
    requires s != [] && k == Stretch(s)
    ensures Runs(s) == [Slice(s[0].phase, Seconds(s[..k]))] + Runs(s[k..])
  {
  }

  lemma RunsSingle(s: seq<Slice>)
    requires s != [] && Stretch(s) == |s|
    ensures Runs(s) == [Slice(s[0].phase, Seconds(s))]
  {
    assert s[..|s|] == s && s[|s|..] == [];
  }

  lemma RunsOne(x: Slice)
    ensures Runs([x]) == [x]
  {
    RunsSingle([x]);
    SecondsSnoc([], x);
    assert [] + [x] == [x];
  }

  /** One more slice either lengthens the last maximal run or opens a new one. */
  lemma {:induction false} RunsSnoc(s: seq<Slice>, x: Slice)
    ensures Runs(s + [x]) == Extend(Runs(s), x)
    decreases |s|
  {
    hide Runs, Seconds, Stretch;
    var all := s + [x];
    if s == [] {
      RunsOne(x);
      RunsEmpty();
      assert all == [x];
    } else {
      var k := Stretch(s);
      StretchSnoc(s, x);
      if k < |s| {
        RunsUnfold(s, k);
        RunsUnfold(all, k);
        assert all[..k] == s[..k] && all[k..] == s[k..] + [x];
        RunsSnoc(s[k..], x);
        RunsNonempty(s[k..]);
        ExtendBehind(Slice(s[0].phase, Seconds(s[..k])), Runs(s[k..]), x);
      } else {
        RunsSnocSingle(s, x);
      }
    }
  }

  lemma RunsNonempty(s: seq<Slice>)
    requires s != []
    ensures Runs(s) != []
  {
  }

  lemma ExtendBehind(first: Slice, rest: seq<Slice>, x: Slice)
    requires rest != []
    ensures Extend([first] + rest, x) == [first] + Extend(rest, x)
  {
  }

  lemma ExtendOne(run: Slice, x: Slice)
    ensures x.phase == run.phase ==> Extend([run], x) == [Slice(run.phase, run.seconds + x.seconds)]
    ensures x.phase != run.phase ==> Extend([run], x) == [run, x]
  {
  }

  lemma RunsSnocSingle(s: seq<Slice>, x: Slice)
    requires s != [] && Stretch(s) == |s|
    ensures Runs(s + [x]) == Extend(Runs(s), x)
  {
    hide Runs, Seconds, Stretch, Extend;
    var all := s + [x];
    StretchSnoc(s, x);
    RunsSingle(s);
    ExtendOne(Slice(s[0].phase, Seconds(s)), x);
    if x.phase == s[0].phase {
      SecondsSnoc(s, x);
      RunsSingle(all);
    } else {
      RunsUnfold(all, |s|);
      assert all[..|s|] == s && all[|s|..] == [x];
      RunsOne(x);
    }
  }

  // ---------- the pass ----------

  /** The accumulators stand for the runs so far: all but the last closed, the last open. */
  ghost predicate Accounts(runs: seq<Slice>, phase: Option<Phase>, duration: real, switches: nat, prefill: seq<real>, decode: seq<real>) {
    if phase.None? then runs == [] && duration == 0.0 && switches == 0 && prefill == decode == []
    else
      && runs != [] && runs[|runs| - 1] == Slice(phase.value, duration) && switches == |runs| - 1
      && prefill == Times(runs[..|runs| - 1], Prefill) && decode == Times(runs[..|runs| - 1], Decode)
  }

  method Observe(phase: Option<Phase>, duration: real, switches: nat, prefill: seq<real>, decode: seq<real>, x: Slice, ghost runs: seq<Slice>)
    returns (duration': real, switches': nat, prefill': seq<real>, decode': seq<real>)
    requires Accounts(runs, phase, duration, switches, prefill, decode)
    ensures Accounts(Extend(runs, x), Some(x.phase), duration', switches', prefill', decode')
  {
    duration', switches', prefill', decode' := duration, switches, prefill, decode;
    if phase.Some? && x.phase != phase.value {
      if phase.value.Prefill? {
        prefill' := prefill' + [duration'];
      } else {
        decode' := decode' + [duration'];
      }
      duration' := 0.0;
      switches' := switches' + 1;
      assert Extend(runs, x)[..|runs|] == runs;
    }
    duration' := duration' + x.seconds;
  }

  /** The accounting pass refines "drop unphased steps, split into maximal runs". */
  method Account(steps: seq<Step>) returns (r: Result<Report, PhaseError>)
    ensures r.Ok? <==> Monotonic(steps)
    ensures r.Ok? ==>
      var runs := Runs(Slices(steps));
      && r.value.prefillRuns == Times(runs, Prefill) && r.value.decodeRuns == Times(runs, Decode)
      && r.value.switches == (if runs == [] then 0 else |runs| - 1)
    ensures r.Ok? ==> ReportsRuns(steps, r.value)
  {
    hide Runs, Times, Extend, Slices, ReportsRuns;
    var prefill: seq<real>, decode: seq<real> := [], [];
    var previous, duration, switches: nat := 0.0, 0.0, 0;
    var phase: Option<Phase> := None;
    RunsEmpty();
    for i := 0 to |steps|
      invariant previous == Last(steps[..i])
      invariant forall k: nat :: k < i ==> Previous(steps, k) <= steps[k].elapsed
      invariant Accounts(Runs(Slices(steps[..i])), phase, duration, switches, prefill, decode)
    {
      var now := steps[i].elapsed;
      if now < previous {
        assert !(Previous(steps, i) <= steps[i].elapsed);
        return Err(NonMonotonicTime);
      }
      assert steps[..i + 1][..i] == steps[..i];
      SlicesStep(steps, i);
      if steps[i].phase.Some? {
        var x := Slice(steps[i].phase.value, now - previous);
        RunsSnoc(Slices(steps[..i]), x);
        duration, switches, prefill, decode :=
          Observe(phase, duration, switches, prefill, decode, x, Runs(Slices(steps[..i])));
        phase := Some(x.phase);
      }
      previous := now;
    }
    assert steps[..|steps|] == steps;
    if phase.Some? {
      TimesLast(Runs(Slices(steps)), phase.value, duration);
      if phase.value.Prefill? {
        prefill := prefill + [duration];
      } else {
        decode := decode + [duration];
      }
    } else {
      TimesEmpty();
    }
    RunsReported(steps, Report(switches, prefill, decode));
    return Ok(Report(switches, prefill, decode));
  }

  lemma SlicesStep(steps: seq<Step>, i: nat)
    requires i < |steps|
    ensures steps[i].phase.None? ==> Slices(steps[..i + 1]) == Slices(steps[..i])
    ensures steps[i].phase.Some? ==>
      Slices(steps[..i + 1]) == Slices(steps[..i]) + [Slice(steps[i].phase.value, steps[i].elapsed - Last(steps[..i]))]
  {
    assert steps[..i + 1][..i] == steps[..i];
  }

  lemma RunsEmpty()
    ensures Runs(Slices([])) == [] && Runs([]) == []
  {
  }

  lemma TimesEmpty()
    ensures Times([], Prefill) == [] && Times([], Decode) == []
  {
  }

  lemma TimesLast(runs: seq<Slice>, p: Phase, duration: real)
    requires runs != [] && runs[|runs| - 1] == Slice(p, duration)
    ensures forall q :: Times(runs, q) == Times(runs[..|runs| - 1], q) + (if p == q then [duration] else [])
  {
  }

  // ---------- the report, spelled out ----------

  /** Exactly the members of a set, in ascending order. */
  ghost predicate Enumerates(at: seq<nat>, s: set<nat>) {
    && (forall j, k :: 0 <= j < k < |at| ==> at[j] < at[k])
    && (forall i: nat :: i in at <==> i in s)
  }

  ghost function PhasedSteps(steps: seq<Step>): set<nat> {
    set i: nat | i < |steps| && steps[i].phase.Some?
  }

  ghost function RunsIn(runs: seq<Slice>, p: Phase): set<nat> {
    set i: nat | i < |runs| && runs[i].phase == p
  }

  /** Step i as a slice: its phase, and the time since the step before it. */
  ghost predicate IsSlice(steps: seq<Step>, i: nat, x: Slice) {
    && i < |steps| && steps[i].phase == Some(x.phase)
    && x.seconds == steps[i].elapsed - Previous(steps, i)
  }

  /** The phased steps, in order. */
  ghost predicate SlicesOf(steps: seq<Step>, slices: seq<Slice>, at: seq<nat>) {
    && Enumerates(at, PhasedSteps(steps)) && |at| == |slices|
    && forall k: nat :: k < |slices| ==> IsSlice(steps, at[k], slices[k])
  }

  /** Run i covers the slices from cuts[i] up to cuts[i + 1], all in its phase. */
  ghost predicate IsRun(slices: seq<Slice>, cuts: seq<nat>, i: nat, run: Slice)
    requires i + 1 < |cuts|
  {
    && cuts[i] < cuts[i + 1] <= |slices|
    && (forall j :: cuts[i] <= j < cuts[i + 1] ==> slices[j].phase == run.phase)
    && run.seconds == Seconds(slices[cuts[i]..cuts[i + 1]])
  }

  /** Consecutive runs that cover all slices and change the phase every time, so none can be longer. */
  ghost predicate RunsOf(slices: seq<Slice>, runs: seq<Slice>, cuts: seq<nat>) {
    && |cuts| == |runs| + 1 && cuts[0] == 0 && cuts[|runs|] == |slices|
    && (forall i: nat :: i < |runs| ==> IsRun(slices, cuts, i, runs[i])) && Alternates(runs)
  }

  /** The durations of the runs in one phase, in order. */
  ghost predicate TimesOf(runs: seq<Slice>, p: Phase, times: seq<real>, at: seq<nat>) {
    && Enumerates(at, RunsIn(runs, p)) && |at| == |times|
    && forall k: nat :: k < |times| ==> at[k] < |runs| && times[k] == runs[at[k]].seconds
  }

  /** The report's durations are those of the maximal runs, per phase, and its switches the changes between them. */
  ghost predicate ReportsRuns(steps: seq<Step>, report: Report) {
    exists slices, runs :: Explains(steps, report, slices, runs)
  }

  ghost predicate Explains(steps: seq<Step>, report: Report, slices: seq<Slice>, runs: seq<Slice>) {
    && (exists at :: SlicesOf(steps, slices, at)) && (exists cuts :: RunsOf(slices, runs, cuts))
    && (exists at :: TimesOf(runs, Prefill, report.prefillRuns, at)) && (exists at :: TimesOf(runs, Decode, report.decodeRuns, at))
    && report.switches == if runs == [] then 0 else |runs| - 1
  }

  lemma EnumerateNext(at: seq<nat>, s: set<nat>, n: nat)
    requires Enumerates(at, s) && forall i :: i in s ==> i < n
    ensures Enumerates(at + [n], s + {n})
  {
    forall k | 0 <= k < |at| ensures at[k] < n {
      assert at[k] in s;
    }
    forall i: nat ensures i in at + [n] <==> i in s + {n} {
      assert i in at + [n] <==> i in at || i == n;
    }
  }

  lemma SlicesNext(steps: seq<Step>, slices: seq<Slice>, at: seq<nat>)
    requires steps != [] && SlicesOf(steps[..|steps| - 1], slices, at)
    ensures var n := |steps| - 1;
      if steps[n].phase.Some? then
        SlicesOf(steps, slices + [Slice(steps[n].phase.value, steps[n].elapsed - Previous(steps, n))], at + [n])
      else SlicesOf(steps, slices, at)
  {
    hide Enumerates;
    var n := |steps| - 1;
    EnumerateNext(at, PhasedSteps(steps[..n]), n);
    assert PhasedSteps(steps) == if steps[n].phase.Some? then PhasedSteps(steps[..n]) + {n} else PhasedSteps(steps[..n]);
    forall k: nat | k < |slices| ensures IsSlice(steps, at[k], slices[k]) {
      assert IsSlice(steps[..n], at[k], slices[k]);
    }
  }

  lemma {:induction false} SlicesListed(steps: seq<Step>) returns (at: seq<nat>)
    ensures SlicesOf(steps, Slices(steps), at)
  {
    if steps == [] {
      at := [];
    } else {
      var n := |steps| - 1;
      var before := SlicesListed(steps[..n]);
      hide SlicesOf;
      at := if steps[n].phase.Some? then before + [n] else before;
      SlicesNext(steps, Slices(steps[..n]), before);
    }
  }

  lemma TimesNext(runs: seq<Slice>, p: Phase, times: seq<real>, at: seq<nat>)
    requires runs != [] && TimesOf(runs[..|runs| - 1], p, times, at)
    ensures var n := |runs| - 1;
      if runs[n].phase == p then TimesOf(runs, p, times + [runs[n].seconds], at + [n]) else TimesOf(runs, p, times, at)
  {
    hide Enumerates;
    var n := |runs| - 1;
    EnumerateNext(at, RunsIn(runs[..n], p), n);
    assert RunsIn(runs, p) == if runs[n].phase == p then RunsIn(runs[..n], p) + {n} else RunsIn(runs[..n], p);
  }

  lemma {:induction false} TimesListed(runs: seq<Slice>, p: Phase) returns (at: seq<nat>)
    ensures TimesOf(runs, p, Times(runs, p), at)
  {
    if runs == [] {
      at := [];
    } else {
      var n := |runs| - 1;
      var before := TimesListed(runs[..n], p);
      hide TimesOf;
      at := if runs[n].phase == p then before + [n] else before;
      TimesNext(runs, p, Times(runs[..n], p), before);
      assert Times(runs[..n], p) + [] == Times(runs[..n], p);
    }
  }

  lemma FirstRunCut(s: seq<Slice>, k: nat, runs: seq<Slice>, rest: seq<nat>, cuts: seq<nat>)
    requires 0 < k <= |s| && runs != [] && RunsOf(s[k..], runs[1..], rest) && Alternates(runs)
    requires forall j :: 0 <= j < k ==> s[j].phase == runs[0].phase
    requires runs[0].seconds == Seconds(s[..k])
    requires |cuts| == |rest| + 1 && cuts[0] == 0 && forall i :: 0 <= i < |rest| ==> cuts[i + 1] == rest[i] + k
    ensures RunsOf(s, runs, cuts)
  {
    hide Seconds;
    forall i: nat | i < |runs| ensures IsRun(s, cuts, i, runs[i]) {
      if i == 0 {
        assert s[0..k] == s[..k];
      } else {
        assert IsRun(s[k..], rest, i - 1, runs[1..][i - 1]);
        assert s[k..][rest[i - 1]..rest[i]] == s[cuts[i]..cuts[i + 1]];
        forall j | cuts[i] <= j < cuts[i + 1] ensures s[j].phase == runs[i].phase {
          assert s[j] == s[k..][j - k];
        }
      }
    }
  }

  lemma {:induction false} RunsCut(s: seq<Slice>) returns (cuts: seq<nat>)
    ensures RunsOf(s, Runs(s), cuts)
    decreases |s|
  {
    hide Seconds, Stretch;
    if s == [] {
      cuts := [0];
    } else {
      var k := Stretch(s);
      var rest := RunsCut(s[k..]);
      RunsUnfold(s, k);
      RunsAlternate(s);
      cuts := [0] + seq(|rest|, i requires 0 <= i < |rest| => rest[i] + k);
      hide RunsOf, Runs;
      assert Runs(s)[1..] == Runs(s[k..]);
      FirstRunCut(s, k, Runs(s), rest, cuts);
    }
  }

  lemma RunsReported(steps: seq<Step>, report: Report)
    requires var runs := Runs(Slices(steps));
      && report.prefillRuns == Times(runs, Prefill) && report.decodeRuns == Times(runs, Decode)
      && report.switches == (if runs == [] then 0 else |runs| - 1)
    ensures ReportsRuns(steps, report)
  {
    hide Runs, Slices, Times, SlicesOf, RunsOf, TimesOf;
    var slices := Slices(steps);
    var at := SlicesListed(steps);
    var cuts := RunsCut(slices);
    var prefillAt := TimesListed(Runs(slices), Prefill);
    var decodeAt := TimesListed(Runs(slices), Decode);
    assert Explains(steps, report, slices, Runs(slices));
  }

  // ---------- what the report is worth ----------

  ghost predicate Alternates(runs: seq<Slice>) {
    forall i :: 0 <= i < |runs| - 1 ==> runs[i].phase != runs[i + 1].phase
  }

  lemma {:induction false} RunsAlternate(s: seq<Slice>)
    ensures Alternates(Runs(s))
    ensures s != [] ==> Runs(s) != [] && Runs(s)[0].phase == s[0].phase
    decreases |s|
  {
    if s != [] {
      var k := Stretch(s);
      RunsAlternate(s[k..]);
    }
  }

  /** Alternating runs: the two phases have equally many, give or take one. */
  lemma {:induction false} AlternatingCounts(runs: seq<Slice>)
    requires Alternates(runs)
    ensures |Times(runs, Prefill)| + |Times(runs, Decode)| == |runs|
    ensures runs != [] && runs[|runs| - 1].phase == Prefill ==> 0 <= |Times(runs, Prefill)| - |Times(runs, Decode)| <= 1
    ensures runs != [] && runs[|runs| - 1].phase == Decode ==> 0 <= |Times(runs, Decode)| - |Times(runs, Prefill)| <= 1
  {
    if runs != [] {
      var front := runs[..|runs| - 1];
      AlternatingCounts(front);
      assert front != [] ==> front[|front| - 1].phase != runs[|runs| - 1].phase;
    }
  }

  lemma {:induction false} TimesSum(runs: seq<Slice>)
    ensures Sum(Times(runs, Prefill)) + Sum(Times(runs, Decode)) == Seconds(runs)
  {
    if runs != [] {
      var front, last := runs[..|runs| - 1], runs[|runs| - 1];
      TimesSum(front);
      var prefill, decode := Times(front, Prefill), Times(front, Decode);
      assert (prefill + [last.seconds])[..|prefill|] == prefill && (decode + [last.seconds])[..|decode|] == decode;
      assert prefill + [] == prefill && decode + [] == decode;
    }
  }

  lemma {:induction false} SecondsAppend(a: seq<Slice>, b: seq<Slice>)
    ensures Seconds(a + b) == Seconds(a) + Seconds(b)
  {
    if b == [] {
      assert a + b == a;
    } else {
      SecondsAppend(a, b[..|b| - 1]);
      assert (a + b)[..|a + b| - 1] == a + b[..|b| - 1];
    }
  }

  lemma SecondsOne(x: Slice)
    ensures Seconds([x]) == x.seconds && Seconds([]) == 0.0
  {
    SecondsSnoc([], x);
    assert [] + [x] == [x];
  }

  lemma {:induction false} RunsConserve(s: seq<Slice>)
    ensures Seconds(Runs(s)) == Seconds(s)
    decreases |s|
  {
    hide Runs, Seconds, Stretch;
    if s == [] {
      RunsEmpty();
    } else {
      var k := Stretch(s);
      RunsUnfold(s, k);
      RunsConserve(s[k..]);
      var first := Slice(s[0].phase, Seconds(s[..k]));
      SecondsAppend([first], Runs(s[k..]));
      assert Seconds([first]) == first.seconds by { SecondsOne(first); }
      SecondsAppend(s[..k], s[k..]);
      assert s == s[..k] + s[k..];
    }
  }

  lemma {:induction false} SlicesConserve(steps: seq<Step>)
    ensures Seconds(Slices(steps)) + Unphased(steps) == Last(steps)
  {
    if steps != [] {
      var n := |steps| - 1;
      SlicesConserve(steps[..n]);
      if steps[n].phase.Some? {
        SecondsSnoc(Slices(steps[..n]), Slice(steps[n].phase.value, steps[n].elapsed - Last(steps[..n])));
      }
    }
  }

  /** Run times of both phases plus the time at unphased steps are the whole elapsed time; run counts differ by at most one. */
  lemma AccountingIsComplete(steps: seq<Step>)
    ensures var runs := Runs(Slices(steps)); var p, d := Times(runs, Prefill), Times(runs, Decode);
      && Sum(p) + Sum(d) + Unphased(steps) == Last(steps)
      && |p| + |d| == |runs| && -1 <= |p| - |d| <= 1
  {
    var slices := Slices(steps);
    var runs := Runs(slices);
    TimesSum(runs);
    RunsConserve(slices);
    SlicesConserve(steps);
    RunsAlternate(slices);
    AlternatingCounts(runs);
  }
}

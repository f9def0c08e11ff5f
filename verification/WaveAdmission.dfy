/** Admitting a trace in waves: the next wave waits until the current one has published tokens. */
module WaveAdmission {
  import opened Arithmetic
  import opened Outcomes

  type SeqId = nat

  /** What one engine step publishes: ids with new tokens, and finished ids with whether they carry tokens. */
  datatype StepOutput = StepOutput(tokens: set<SeqId>, finished: map<SeqId, bool>)

  /** One admission: the requests [start, end) of the trace, and how many requests had published before. */
  datatype Wave = Wave(start: nat, end: nat, publishedBefore: nat)

  datatype AdmissionError = DuplicateId(id: SeqId) | EndedEarly(last: State)

  datatype State = State(
    next: nat, start: nat, current: set<SeqId>, admitted: set<SeqId>, published: set<SeqId>, live: set<SeqId>, waves: seq<Wave>)

  // ---------- what every run keeps ----------

  ghost function IdsOf(ids: seq<SeqId>, lo: nat, hi: nat): set<SeqId>
    requires lo <= hi <= |ids|
  {
    set i | lo <= i < hi :: ids[i]
  }

  ghost predicate DistinctUpTo(ids: seq<SeqId>, n: nat)
    requires n <= |ids|
  {
    forall i, j :: 0 <= i < j < n ==> ids[i] != ids[j]
  }

  /** The first request, in trace order, whose id was there before. */
  ghost predicate FirstRepeated(ids: seq<SeqId>, id: SeqId) {
    exists j: nat :: j < |ids| && DistinctUpTo(ids, j) && ids[j] == id && exists i :: 0 <= i < j && ids[i] == id
  }

  lemma RepeatedHere(ids: seq<SeqId>, i: nat)
    requires i < |ids| && DistinctUpTo(ids, i) && ids[i] in IdsOf(ids, 0, i)
    ensures FirstRepeated(ids, ids[i]) && !DistinctUpTo(ids, |ids|)
  {
  }

  /** The first `next` requests were admitted, once each and in trace order; `start` is where the current wave begins. */
  ghost predicate Admitted(ids: seq<SeqId>, s: State) {
    && s.start <= s.next <= |ids| && DistinctUpTo(ids, s.next)
    && s.admitted == IdsOf(ids, 0, s.next) && s.current == IdsOf(ids, s.start, s.next)
    && s.published <= s.admitted && s.live <= s.admitted
    && IdsOf(ids, 0, s.start) <= s.published
  }

  /** Every recorded wave was admitted when exactly the requests before it had published. */
  ghost predicate Logged(width: nat, s: State) {
    && (forall k :: 0 <= k < |s.waves| ==> s.waves[k].start == s.waves[k].publishedBefore == k * width)
    && (forall k :: 0 <= k < |s.waves| - 1 ==> s.waves[k].end == s.waves[k + 1].start)
    && (s.waves != [] ==> s.waves[|s.waves| - 1] == Wave(s.start, s.next, s.start))
  }

  /** While requests remain, some request of the current wave has not published yet. */
  ghost predicate Waiting(ids: seq<SeqId>, s: State) {
    s.next < |ids| ==> !(s.current <= s.published)
  }

  ghost predicate Inv(ids: seq<SeqId>, width: nat, s: State) {
    Admitted(ids, s) && Logged(width, s) && Waiting(ids, s) && (s.next < |ids| ==> s.next == s.start + width)
  }

  lemma {:induction false} IdsOfCount(ids: seq<SeqId>, n: nat)
    requires n <= |ids| && DistinctUpTo(ids, n)
    ensures |IdsOf(ids, 0, n)| == n
  {
    if n == 0 {
      NoIds(ids, 0);
    } else {
      IdsOfCount(ids, n - 1);
      NextId(ids, 0, n - 1);
      FreshId(ids, n - 1);
      hide IdsOf;
    }
  }

  lemma NextId(ids: seq<SeqId>, lo: nat, i: nat)
    requires lo <= i < |ids|
    ensures IdsOf(ids, lo, i + 1) == IdsOf(ids, lo, i) + {ids[i]}
  {
  }

  lemma FreshId(ids: seq<SeqId>, i: nat)
    requires i < |ids| && DistinctUpTo(ids, i)
    ensures DistinctUpTo(ids, i + 1) <==> ids[i] !in IdsOf(ids, 0, i)
    ensures ids[i] in IdsOf(ids, 0, i) ==> !DistinctUpTo(ids, |ids|)
  {
  }

  lemma NoIds(ids: seq<SeqId>, lo: nat)
    requires lo <= |ids|
    ensures IdsOf(ids, lo, lo) == {}
  {
  }

  /** Adds the requests [from, to) of the trace in order; a repeated engine id is an error. */
  method AddRequests(ids: seq<SeqId>, from: nat, to: nat, admitted: set<SeqId>, live: set<SeqId>)
    returns (r: Result<(set<SeqId>, set<SeqId>, set<SeqId>), AdmissionError>)
    requires from <= to <= |ids| && DistinctUpTo(ids, from) && admitted == IdsOf(ids, 0, from)
    ensures r.Ok? <==> DistinctUpTo(ids, to)
    ensures r.Ok? ==> r.value == (IdsOf(ids, 0, to), live + IdsOf(ids, from, to), IdsOf(ids, from, to))
    ensures r.Err? ==> r.error.DuplicateId? && FirstRepeated(ids, r.error.id) && !DistinctUpTo(ids, |ids|)
  {
    hide IdsOf, DistinctUpTo, FirstRepeated;
    var admitted', live', current := admitted, live, {};
    NoIds(ids, from);
    for i := from to to
      invariant DistinctUpTo(ids, i) && admitted' == IdsOf(ids, 0, i) && current == IdsOf(ids, from, i)
      invariant live' == live + current
    {
      NextId(ids, 0, i);
      NextId(ids, from, i);
      FreshId(ids, i);
      if ids[i] in admitted' {
        RepeatedHere(ids, i);
        DistinctShorter(ids, i + 1, to);
        return Err(DuplicateId(ids[i]));
      }
      admitted', live', current := admitted' + {ids[i]}, live' + {ids[i]}, current + {ids[i]};
    }
    return Ok((admitted', live', current));
  }

  lemma DistinctShorter(ids: seq<SeqId>, n: nat, m: nat)
    requires n <= m <= |ids|
    ensures DistinctUpTo(ids, m) ==> DistinctUpTo(ids, n)
  {
  }

  /** Adds the next wave, in trace order. */
  method AdmitWave(ids: seq<SeqId>, width: nat, log: bool, s: State) returns (r: Result<State, AdmissionError>)
    requires Admitted(ids, s) && s.published == s.admitted && Logged(width, s) && (width == 0 ==> ids == [])
    requires s.next == (if s.waves == [] then 0 else s.start + width) && (log || s.waves == [])
    ensures r.Err? ==> r.error.DuplicateId? && FirstRepeated(ids, r.error.id) && !DistinctUpTo(ids, |ids|)
    ensures r.Ok? ==> Inv(ids, width, r.value) && Opened(ids, width, s, r.value)
    ensures r.Ok? ==> (log || r.value.waves == []) && (log ==> |r.value.waves| == |s.waves| + 1)
  {
    hide IdsOf, DistinctUpTo, Logged, Waiting, FirstRepeated;
    var end := Min(s.next + width, |ids|);
    var added := AddRequests(ids, s.next, end, s.admitted, s.live);
    if added.Err? {
      return Err(added.error);
    }
    var (admitted, live, current) := added.value;
    IdsOfCount(ids, s.next);
    var waves := if log then s.waves + [Wave(s.next, end, |s.published|)] else s.waves;
    var s' := State(end, s.next, current, admitted, s.published, live, waves);
    AdmittedWaits(ids, width, s, s');
    LoggedWave(width, log, s, s');
    SplitIds(ids, s.next, end);
    return Ok(s');
  }

  /** What admitting one more wave does: the next `width` requests, in order, and nothing else. */
  ghost predicate Opened(ids: seq<SeqId>, width: nat, s: State, s': State) {
    && s.next <= |ids| && s'.start == s.next && s'.next == Min(s.next + width, |ids|)
    && DistinctUpTo(ids, s'.next) && s'.published == s.published
    && s'.admitted == s.admitted + IdsOf(ids, s.next, s'.next)
    && s'.live == s.live + IdsOf(ids, s.next, s'.next)
  }

  lemma AdmittedWaits(ids: seq<SeqId>, width: nat, s: State, s': State)
    requires Admitted(ids, s) && s.published == s.admitted && (width == 0 ==> ids == [])
    requires s'.start == s.next && s'.next == Min(s.next + width, |ids|) && DistinctUpTo(ids, s'.next)
    requires s'.admitted == IdsOf(ids, 0, s'.next) && s'.current == IdsOf(ids, s.next, s'.next)
    requires s'.published == s.published && s'.live == s.live + s'.current
    ensures Admitted(ids, s') && Waiting(ids, s')
  {
    if s'.next < |ids| {
      assert ids[s.next] in s'.current;
      assert ids[s.next] !in IdsOf(ids, 0, s.next);
    }
  }

  lemma LoggedWave(width: nat, log: bool, s: State, s': State)
    requires Logged(width, s) && s.next == (if s.waves == [] then 0 else s.start + width) && |s.published| == s.next
    requires s'.start == s.next
    requires s'.waves == if log then s.waves + [Wave(s.next, s'.next, |s.published|)] else s.waves
    requires log || s.waves == []
    ensures Logged(width, s')
  {
    if log && s.waves != [] {
      var n := |s.waves|;
      assert s.start == (n - 1) * width;
      assert n * width == (n - 1) * width + width;
    }
  }

  /** What a step's outputs do to the books, before any admission. */
  function Absorb(s: State, out: StepOutput): State {
    var finishedWithTokens := set id | id in out.finished && out.finished[id];
    s.(published := s.published + (out.tokens + finishedWithTokens) * s.admitted, live := s.live - out.finished.Keys)
  }

  lemma AbsorbKeeps(ids: seq<SeqId>, width: nat, s: State, out: StepOutput)
    requires Inv(ids, width, s)
    ensures Admitted(ids, Absorb(s, out)) && Logged(width, Absorb(s, out))
  {
  }

  lemma SplitIds(ids: seq<SeqId>, mid: nat, hi: nat)
    requires mid <= hi <= |ids|
    ensures IdsOf(ids, 0, hi) == IdsOf(ids, 0, mid) + IdsOf(ids, mid, hi)
  {
  }

  /** One iteration: absorb the step, then admit the next wave if the current one has published. */
  method Iterate(ids: seq<SeqId>, width: nat, log: bool, s: State, out: StepOutput) returns (r: Result<State, AdmissionError>)
    requires Inv(ids, width, s) && (width == 0 ==> ids == []) && (if log then s.waves != [] else s.waves == [] && s.next == |ids|)
    ensures r.Err? ==> r.error.DuplicateId? && FirstRepeated(ids, r.error.id) && !DistinctUpTo(ids, |ids|)
    ensures r.Ok? ==> Inv(ids, width, r.value) && (if log then r.value.waves != [] else r.value.waves == [] && r.value.next == |ids|)
    ensures r.Ok? ==>
      var a := Absorb(s, out);
      if a.next < |ids| && a.current <= a.published then a.published == a.admitted && Opened(ids, width, a, r.value) else r.value == a
  {
    hide IdsOf, Logged, FirstRepeated;
    AbsorbKeeps(ids, width, s, out);
    var s' := Absorb(s, out);
    if s'.next < |ids| && s'.current <= s'.published {
      SplitIds(ids, s'.start, s'.next);
      r := AdmitWave(ids, width, log, s');
      return;
    }
    return Ok(s');
  }

  // ---------- the state against the engine's outputs ----------

  /** The output names the request with tokens, or as finished with tokens. */
  ghost predicate Names(out: StepOutput, id: SeqId) {
    id in out.tokens || (id in out.finished && out.finished[id])
  }

  ghost predicate PublishedBetween(outputs: seq<StepOutput>, id: SeqId, from: nat, to: nat)
    requires to <= |outputs|
  {
    exists k :: from <= k < to && Names(outputs[k], id)
  }

  ghost predicate FinishedBetween(outputs: seq<StepOutput>, id: SeqId, from: nat, to: nat)
    requires to <= |outputs|
  {
    exists k :: from <= k < to && id in outputs[k].finished
  }

  /** When request i was admitted: in which wave, and after how many outputs. */
  datatype Admission = Admission(wave: nat, step: nat)

  /**
   After n outputs: a request has published exactly if an output since its admission named it with
   tokens, it is live exactly if no output since then finished it, and it was admitted after every
   request of every earlier wave had published.
   */
  ghost predicate Timed(ids: seq<SeqId>, width: nat, s: State, outputs: seq<StepOutput>, n: nat, at: seq<Admission>) {
    && n <= |outputs| && |at| == s.next <= |ids|
    && (forall i :: 0 <= i < |at| ==> at[i].step <= n && at[i].wave * width <= i < at[i].wave * width + width)
    && (forall i :: 0 <= i < |at| ==> Current(ids, s, outputs, n, at[i].step, i))
    && (forall i, j :: 0 <= i < |at| && 0 <= j < |at| && i < at[j].wave * width ==>
          PublishedBetween(outputs, ids[i], at[i].step, at[j].step))
  }

  ghost predicate Current(ids: seq<SeqId>, s: State, outputs: seq<StepOutput>, n: nat, since: nat, i: nat)
    requires n <= |outputs| && i < |ids|
  {
    && (ids[i] in s.published <==> PublishedBetween(outputs, ids[i], since, n))
    && (ids[i] in s.live <==> !FinishedBetween(outputs, ids[i], since, n))
  }

  lemma OneMoreOutput(outputs: seq<StepOutput>, id: SeqId, from: nat, n: nat)
    requires from <= n < |outputs|
    ensures PublishedBetween(outputs, id, from, n + 1) <==> PublishedBetween(outputs, id, from, n) || Names(outputs[n], id)
    ensures FinishedBetween(outputs, id, from, n + 1) <==> FinishedBetween(outputs, id, from, n) || id in outputs[n].finished
  {
  }

  lemma AbsorbAt(ids: seq<SeqId>, s: State, out: StepOutput, i: nat)
    requires Admitted(ids, s) && i < s.next
    ensures ids[i] in Absorb(s, out).published <==> ids[i] in s.published || Names(out, ids[i])
    ensures ids[i] in Absorb(s, out).live <==> ids[i] in s.live && ids[i] !in out.finished
  {
    assert ids[i] in IdsOf(ids, 0, s.next);
  }

  /** Absorbing one more output keeps the state in step with the outputs. */
  lemma TimedAbsorb(ids: seq<SeqId>, width: nat, s: State, outputs: seq<StepOutput>, n: nat, at: seq<Admission>)
    requires Timed(ids, width, s, outputs, n, at) && Admitted(ids, s) && n < |outputs|
    ensures Timed(ids, width, Absorb(s, outputs[n]), outputs, n + 1, at)
  {
    hide Admitted, PublishedBetween, FinishedBetween, Absorb, Names;
    AbsorbAdmitsNone(s, outputs[n]);
    forall i | 0 <= i < |at| ensures Current(ids, Absorb(s, outputs[n]), outputs, n + 1, at[i].step, i) {
      assert Current(ids, s, outputs, n, at[i].step, i);
      OneMoreOutput(outputs, ids[i], at[i].step, n);
      AbsorbAt(ids, s, outputs[n], i);
    }
  }

  lemma AbsorbAdmitsNone(s: State, out: StepOutput)
    ensures Absorb(s, out).next == s.next && Absorb(s, out).start == s.start
  {
  }

  /** The admissions after one more wave. */
  ghost function Enrolled(at: seq<Admission>, more: nat, wave: nat, step: nat): (r: seq<Admission>)
    ensures |r| == |at| + more
    ensures forall i :: 0 <= i < |r| ==> r[i] == if i < |at| then at[i] else Admission(wave, step)
  {
    at + seq(more, i => Admission(wave, step))
  }

  lemma NewcomersCurrent(ids: seq<SeqId>, width: nat, s: State, s': State, outputs: seq<StepOutput>, n: nat, i: nat)
    requires Admitted(ids, s) && s.published == s.admitted && Opened(ids, width, s, s') && n <= |outputs| && s.next <= i < s'.next
    ensures Current(ids, s', outputs, n, n, i)
  {
    assert ids[i] in IdsOf(ids, s.next, s'.next);
    assert ids[i] !in IdsOf(ids, 0, s.next);
  }

  lemma VeteransCurrent(ids: seq<SeqId>, width: nat, s: State, s': State, outputs: seq<StepOutput>, n: nat, since: nat, i: nat)
    requires Admitted(ids, s) && Opened(ids, width, s, s') && n <= |outputs| && i < s.next
    requires Current(ids, s, outputs, n, since, i)
    ensures Current(ids, s', outputs, n, since, i)
  {
    assert ids[i] !in IdsOf(ids, s.next, s'.next);
  }

  /** Opening a wave once everything before it has published. */
  lemma TimedOpen(ids: seq<SeqId>, width: nat, s: State, s': State, outputs: seq<StepOutput>, n: nat, at: seq<Admission>, wave: nat)
    requires Timed(ids, width, s, outputs, n, at) && Admitted(ids, s) && s.published == s.admitted
    requires Opened(ids, width, s, s') && s.next == wave * width
    ensures Timed(ids, width, s', outputs, n, Enrolled(at, s'.next - s.next, wave, n))
  {
    hide PublishedBetween, FinishedBetween;
    var at' := Enrolled(at, s'.next - s.next, wave, n);
    forall i | 0 <= i < |at'| ensures Current(ids, s', outputs, n, at'[i].step, i) {
      if i < |at| {
        VeteransCurrent(ids, width, s, s', outputs, n, at[i].step, i);
      } else {
        NewcomersCurrent(ids, width, s, s', outputs, n, i);
      }
    }
    forall i, j | 0 <= i < |at'| && 0 <= j < |at'| && i < at'[j].wave * width
      ensures PublishedBetween(outputs, ids[i], at'[i].step, at'[j].step)
    {
      if j >= |at| {
        EarlierPublished(ids, s, outputs, n, at, i);
      }
    }
  }

  lemma EarlierPublished(ids: seq<SeqId>, s: State, outputs: seq<StepOutput>, n: nat, at: seq<Admission>, i: nat)
    requires n <= |outputs| && i < s.next <= |ids| && s.next == |at| && Admitted(ids, s) && s.published == s.admitted
    requires Current(ids, s, outputs, n, at[i].step, i)
    ensures PublishedBetween(outputs, ids[i], at[i].step, n)
  {
    assert ids[i] in IdsOf(ids, 0, s.next);
  }

  /** One iteration of the loop, seen from the outputs. */
  lemma TimedIterate(ids: seq<SeqId>, width: nat, s: State, s': State, outputs: seq<StepOutput>, n: nat, at: seq<Admission>, wave: nat)
    returns (at': seq<Admission>, wave': nat)
    requires Timed(ids, width, s, outputs, n, at) && Inv(ids, width, s) && n < |outputs| && (s.next < |ids| ==> s.next == wave * width)
    requires var a := Absorb(s, outputs[n]);
      if a.next < |ids| && a.current <= a.published then a.published == a.admitted && Opened(ids, width, a, s') else s' == a
    ensures Timed(ids, width, s', outputs, n + 1, at') && (s'.next < |ids| ==> s'.next == wave' * width)
  {
    hide Timed, Absorb, Admitted, Logged, Waiting;
    var a := Absorb(s, outputs[n]);
    TimedAbsorb(ids, width, s, outputs, n, at);
    AbsorbKeeps(ids, width, s, outputs[n]);
    AbsorbAdmitsNone(s, outputs[n]);
    at', wave' := at, wave;
    if a.next < |ids| && a.current <= a.published {
      TimedOpen(ids, width, a, s', outputs, n + 1, at, wave);
      at', wave' := Enrolled(at, s'.next - a.next, wave, n + 1), wave + 1;
      assert wave' * width == wave * width + width;
    }
  }

  lemma TimedStart(ids: seq<SeqId>, width: nat, s: State, outputs: seq<StepOutput>)
    requires Opened(ids, width, State(0, 0, {}, {}, {}, {}, []), s)
    ensures Timed(ids, width, s, outputs, 0, Enrolled([], s.next, 0, 0)) && (s.next < |ids| ==> s.next == 1 * width)
  {
    Nothing(ids, width);
    TimedOpen(ids, width, State(0, 0, {}, {}, {}, {}, []), s, outputs, 0, [], 0);
  }

  lemma Nothing(ids: seq<SeqId>, width: nat)
    ensures Admitted(ids, State(0, 0, {}, {}, {}, {}, [])) && Logged(width, State(0, 0, {}, {}, {}, {}, []))
  {
  }

  // ---------- whole runs ----------

  /** Every output that finishes a request carries its tokens. */
  ghost predicate CarryTokens(outputs: seq<StepOutput>) {
    forall k, id :: 0 <= k < |outputs| && id in outputs[k].finished ==> outputs[k].finished[id]
  }

  lemma FinishedHasPublished(ids: seq<SeqId>, s: State, outputs: seq<StepOutput>, n: nat, since: nat, i: nat)
    requires n <= |outputs| && i < |ids| && Current(ids, s, outputs, n, since, i) && CarryTokens(outputs) && ids[i] !in s.live
    ensures ids[i] in s.published
  {
    var k :| since <= k < n && ids[i] in outputs[k].finished;
    assert Names(outputs[k], ids[i]);
  }

  /** If finished requests carry tokens, nothing is left to admit once nothing is live. */
  lemma NothingLeft(ids: seq<SeqId>, width: nat, s: State, outputs: seq<StepOutput>, n: nat, at: seq<Admission>)
    requires Timed(ids, width, s, outputs, n, at) && Inv(ids, width, s) && CarryTokens(outputs) && s.live == {}
    ensures s.next == |ids|
  {
    hide Current;
    forall i | s.start <= i < s.next ensures ids[i] in s.published {
      FinishedHasPublished(ids, s, outputs, n, at[i].step, i);
    }
    assert s.current <= s.published;
  }

  /** The state after the first n outputs, with the admissions that led to it. */
  ghost predicate Explains(ids: seq<SeqId>, width: nat, s: State, outputs: seq<StepOutput>, n: nat, at: seq<Admission>) {
    Inv(ids, width, s) && Timed(ids, width, s, outputs, n, at)
  }

  /**
   The whole loop, for any engine outputs.  The state is that of the consumed outputs: who has
   published and who is live is read off the outputs since each admission, and every request was
   admitted after all requests of earlier waves were named with tokens.  Consumption stops when
   nothing is live, and only then or when the outputs end.  A run that ends with nothing live has
   admitted the whole trace, or it reports EndedEarly; with an engine whose finished requests always
   carry a token it never does.
   */
  method Run(ids: seq<SeqId>, waveSize: nat, outputs: seq<StepOutput>)
    returns (r: Result<State, AdmissionError>, ghost consumed: nat, ghost at: seq<Admission>)
    ensures var width := if waveSize > 0 then waveSize else |ids|;
      && (r.Ok? ==> Explains(ids, width, r.value, outputs, consumed, at))
      && (r.Ok? ==> if r.value.live == {} then r.value.next == |ids| else consumed == |outputs|)
      && (r.Err? && r.error.EndedEarly? ==>
            Explains(ids, width, r.error.last, outputs, consumed, at) && r.error.last.live == {} && r.error.last.next < |ids|)
    ensures r.Err? && r.error.DuplicateId? ==> FirstRepeated(ids, r.error.id) && !DistinctUpTo(ids, |ids|)
    ensures CarryTokens(outputs) && DistinctUpTo(ids, |ids|) ==> r.Ok?
    ensures r.Ok? && waveSize > 0 && ids != [] ==> r.value.waves != []
    ensures r.Ok? && waveSize == 0 ==> r.value.waves == []
  {
    hide Inv, Admitted, Logged, Timed, Absorb, FirstRepeated;
    var width := if waveSize > 0 then waveSize else |ids|;
    var log := waveSize > 0;
    Nothing(ids, width);
    consumed, at := 0, [];
    r := AdmitWave(ids, width, log, State(0, 0, {}, {}, {}, {}, []));
    if r.Err? {
      return;
    }
    var s := r.value;
    TimedStart(ids, width, s, outputs);
    at := Enrolled([], s.next, 0, 0);
    ghost var wave: nat := 1;
    var k := 0;
    while s.live != {} && k < |outputs|
      invariant 0 <= k <= |outputs| && Inv(ids, width, s) && Timed(ids, width, s, outputs, k, at)
      invariant s.next < |ids| ==> s.next == wave * width
      invariant if log then s.waves != [] else s.waves == [] && s.next == |ids|
      decreases |outputs| - k
    {
      var step := Iterate(ids, width, log, s, outputs[k]);
      consumed := k;
      if step.Err? {
        return Err(step.error), consumed, at;
      }
      at, wave := TimedIterate(ids, width, s, step.value, outputs, k, at, wave);
      s := step.value;
      k := k + 1;
    }
    consumed := k;
    if CarryTokens(outputs) && s.live == {} {
      NothingLeft(ids, width, s, outputs, k, at);
    }
    WithinTrace(ids, width, s);
    if s.live == {} && s.next != |ids| {
      return Err(EndedEarly(s)), consumed, at;
    }
    return Ok(s), consumed, at;
  }

  lemma WithinTrace(ids: seq<SeqId>, width: nat, s: State)
    requires Inv(ids, width, s)
    ensures s.next <= |ids|
  {
  }
}

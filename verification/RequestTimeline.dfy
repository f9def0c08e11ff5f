/** Per-request latencies and the batch decode window built from one request timeline. */
module RequestTimeline {
  import opened Arithmetic
  import opened Outcomes
  import opened Sorting

  datatype Timeline = Timeline(arrival: map<int, real>, first: map<int, real>, finished: map<int, real>, generated: map<int, int>)

  datatype TimelineError = NoRequests | CoverageMismatch | NonPositiveCount(id: int) | InvalidOrder(id: int) | NoDecodeTime(id: int)

  datatype Row = Row(id: int, ttftMs: real, latencyMs: real, tpotMs: Option<real>, generated: int)

  datatype Metrics = Metrics(rows: seq<Row>, prefillElapsed: real, decodeElapsed: real)

  predicate Ordered(t: Timeline, id: int)
    requires id in t.arrival && id in t.first && id in t.finished && id in t.generated
  {
    && t.generated[id] > 0 && t.arrival[id] <= t.first[id] <= t.finished[id]
    && (t.generated[id] > 1 ==> t.first[id] < t.finished[id])
  }

  predicate Covered(t: Timeline) {
    t.arrival.Keys == t.first.Keys == t.finished.Keys == t.generated.Keys
  }

  ghost predicate Sound(t: Timeline) {
    t.arrival.Keys != {} && Covered(t) && forall id :: id in t.arrival ==> Ordered(t, id)
  }

  function RowOf(t: Timeline, id: int): Row
    requires Covered(t) && id in t.arrival
  {
    var ttft, decode := t.first[id] - t.arrival[id], t.finished[id] - t.first[id];
    Row(id, ttft * 1000.0, (ttft + decode) * 1000.0,
        if t.generated[id] > 1 then Some(decode * 1000.0 / (t.generated[id] - 1) as real) else None,
        t.generated[id])
  }

  ghost predicate Increasing(ids: seq<int>) {
    forall i, j :: 0 <= i < j < |ids| ==> ids[i] < ids[j]
  }

  ghost predicate Lists(ids: seq<int>, keys: set<int>) {
    (forall i :: 0 <= i < |ids| ==> ids[i] in keys) && forall x :: x in keys ==> x in ids
  }

  /** The ids in ascending order, each once. */
  method SortedIds(keys: set<int>) returns (ids: seq<int>)
    ensures Increasing(ids) && Lists(ids, keys)
  {
    ids := [];
    var rest := keys;
    while rest != {}
      invariant rest <= keys && Sorted(IntLe, ids) && Distinct(ids)
      invariant Lists(ids, keys - rest)
      decreases |rest|
    {
      ghost var some := SomeMember(rest);
      var x :| x in rest;
      InsertSorted(IntLe, ids, x);
      InsertDistinct(ids, x, keys - rest);
      ids := Insert(IntLe, ids, x);
      assert keys - rest + {x} == keys - (rest - {x});
      rest := rest - {x};
    }
    forall i, j | 0 <= i < j < |ids| ensures ids[i] < ids[j] {
      assert IntLe(ids[i], ids[j]) && ids[i] != ids[j];
    }
  }

  lemma {:induction false} InsertDistinct(s: seq<int>, x: int, keys: set<int>)
    requires Distinct(s) && Lists(s, keys) && x !in keys
    ensures Distinct(Insert(IntLe, s, x)) && Lists(Insert(IntLe, s, x), keys + {x})
  {
    if s != [] && !IntLe(s[|s| - 1], x) {
      var front, last := s[..|s| - 1], s[|s| - 1];
      assert Lists(front, keys - {last}) by {
        forall y | y in keys - {last} ensures y in front {
          var i :| 0 <= i < |s| && s[i] == y;
          assert front[i] == y;
        }
      }
      InsertDistinct(front, x, keys - {last});
      assert keys - {last} + {x} + {last} == keys + {x};
    }
  }

  ghost predicate Attains(values: map<int, real>, id: int, m: real) {
    id in values && values[id] == m
  }

  ghost predicate Greatest(m: real, values: map<int, real>) {
    (exists id :: Attains(values, id, m)) && forall id :: id in values ==> values[id] <= m
  }

  ghost predicate Least(m: real, values: map<int, real>) {
    (exists id :: Attains(values, id, m)) && forall id :: id in values ==> m <= values[id]
  }

  method Extremes(values: map<int, real>, ids: seq<int>) returns (least: real, greatest: real)
    requires ids != [] && Lists(ids, values.Keys)
    ensures Least(least, values) && Greatest(greatest, values)
  {
    assert ids[0] in values.Keys;
    least, greatest := values[ids[0]], values[ids[0]];
    ghost var low, high := ids[0], ids[0];
    for i := 1 to |ids|
      invariant Attains(values, low, least) && Attains(values, high, greatest)
      invariant forall k :: 0 <= k < i ==> ids[k] in values && least <= values[ids[k]] <= greatest
    {
      assert ids[i] in values.Keys;
      var v := values[ids[i]];
      if v < least {
        least, low := v, ids[i];
      }
      if v > greatest {
        greatest, high := v, ids[i];
      }
    }
    forall id | id in values ensures least <= values[id] <= greatest {
      assert id in ids;
    }
  }

  function Waits(t: Timeline): map<int, real>
    requires Covered(t)
  {
    map id | id in t.arrival :: t.first[id] - t.arrival[id]
  }

  /** The longest time from an arrival to that request's first token. */
  ghost predicate LongestWait(t: Timeline, wait: real)
    requires Covered(t)
  {
    && (exists id :: id in t.arrival && wait == t.first[id] - t.arrival[id])
    && forall id :: id in t.arrival ==> t.first[id] - t.arrival[id] <= wait
  }

  lemma WaitsGreatest(t: Timeline, wait: real)
    requires Covered(t)
    ensures Greatest(wait, Waits(t)) <==> LongestWait(t, wait)
  {
    var waits := Waits(t);
    if Greatest(wait, waits) {
      var id :| Attains(waits, id, wait);
      assert id in t.arrival;
      forall x | x in t.arrival ensures t.first[x] - t.arrival[x] <= wait {
        assert x in waits;
      }
    }
    if LongestWait(t, wait) {
      var id :| id in t.arrival && wait == t.first[id] - t.arrival[id];
      assert Attains(waits, id, wait);
    }
  }

  /** What is wrong with one request. */
  ghost predicate Offends(t: Timeline, id: int, e: TimelineError)
    requires Covered(t) && id in t.arrival
  {
    match e
    case NonPositiveCount(x) => x == id && t.generated[id] <= 0
    case InvalidOrder(x) => x == id && t.generated[id] > 0 && (t.first[id] < t.arrival[id] || t.finished[id] < t.first[id])
    case NoDecodeTime(x) => x == id && t.generated[id] > 1 && t.arrival[id] <= t.first[id] == t.finished[id]
    case _ => false
  }

  /** The request that an error blames, where every request with a smaller id is in order. */
  ghost predicate FirstOffends(t: Timeline, id: int, e: TimelineError)
    requires Covered(t)
  {
    id in t.arrival && Offends(t, id, e) && forall x :: x in t.arrival && x < id ==> Ordered(t, x)
  }

  /** The per-request loop: the rows in id order, or the first request that is out of order. */
  method BuildRows(t: Timeline, ids: seq<int>) returns (r: Result<seq<Row>, TimelineError>)
    requires Covered(t) && forall i :: 0 <= i < |ids| ==> ids[i] in t.arrival
    ensures r.Ok? <==> forall i :: 0 <= i < |ids| ==> Ordered(t, ids[i])
    ensures r.Ok? ==> |r.value| == |ids| && forall i :: 0 <= i < |ids| ==> r.value[i] == RowOf(t, ids[i])
    ensures r.Err? ==> exists i :: 0 <= i < |ids| && Offends(t, ids[i], r.error) && forall k :: 0 <= k < i ==> Ordered(t, ids[k])
  {
    var rows: seq<Row> := [];
    for i := 0 to |ids|
      invariant |rows| == i
      invariant forall k :: 0 <= k < i ==> Ordered(t, ids[k]) && rows[k] == RowOf(t, ids[k])
    {
      var id := ids[i];
      if t.generated[id] <= 0 {
        return Err(NonPositiveCount(id));
      }
      if t.first[id] < t.arrival[id] || t.finished[id] < t.first[id] {
        return Err(InvalidOrder(id));
      }
      if t.generated[id] > 1 && t.finished[id] - t.first[id] <= 0.0 {
        return Err(NoDecodeTime(id));
      }
      rows := rows + [RowOf(t, id)];
    }
    return Ok(rows);
  }

  /** The latencies of a request in milliseconds: to the first token, to the last, and per token after the first. */
  ghost predicate Times(t: Timeline, row: Row)
    requires Covered(t) && row.id in t.arrival
  {
    var arrival, first, finished := t.arrival[row.id], t.first[row.id], t.finished[row.id];
    && row.generated == t.generated[row.id]
    && row.ttftMs == 1000.0 * (first - arrival) && row.latencyMs == 1000.0 * (finished - arrival)
    && (row.tpotMs.Some? <==> row.generated > 1)
    && (row.tpotMs.Some? ==> row.tpotMs.value * (row.generated - 1) as real == 1000.0 * (finished - first))
  }

  lemma RowTimes(t: Timeline, id: int)
    requires Covered(t) && id in t.arrival
    ensures RowOf(t, id).id == id && Times(t, RowOf(t, id))
  {
    if t.generated[id] > 1 {
      QuotientTimes((t.finished[id] - t.first[id]) * 1000.0, (t.generated[id] - 1) as real);
    }
  }

  ghost predicate Covers(rows: seq<Row>, id: int) {
    exists i :: 0 <= i < |rows| && rows[i].id == id
  }

  /** One row per request, in id order, with that request's latencies. */
  ghost predicate Reports(t: Timeline, rows: seq<Row>)
    requires Covered(t)
  {
    && (forall i, j :: 0 <= i < j < |rows| ==> rows[i].id < rows[j].id)
    && (forall id :: id in t.arrival ==> Covers(rows, id))
    && (forall i :: 0 <= i < |rows| ==> rows[i].id in t.arrival && rows[i] == RowOf(t, rows[i].id) && Times(t, rows[i]))
  }

  ghost predicate IsDecodeWindow(t: Timeline, window: real) {
    exists least, greatest :: Least(least, t.first) && Greatest(greatest, t.finished) && window == greatest - least
  }

  /** Accepts exactly the sound timelines, and reports one row per request in id order with the batch windows. */
  method Measure(t: Timeline) returns (r: Result<Metrics, TimelineError>)
    ensures r.Ok? <==> Sound(t)
    ensures r.Ok? ==>
      Reports(t, r.value.rows) && LongestWait(t, r.value.prefillElapsed) && IsDecodeWindow(t, r.value.decodeElapsed)
    ensures r == Err(NoRequests) <==> t.arrival.Keys == {}
    ensures r == Err(CoverageMismatch) <==> t.arrival.Keys != {} && !Covered(t)
    ensures r.Err? && t.arrival.Keys != {} && Covered(t) ==> exists id :: FirstOffends(t, id, r.error)
  {
    if t.arrival.Keys == {} {
      return Err(NoRequests);
    }
    if !Covered(t) {
      return Err(CoverageMismatch);
    }
    var ids := SortedIds(t.arrival.Keys);
    NonemptyIds(t.arrival.Keys, ids);
    var rows := BuildRows(t, ids);
    if rows.Err? {
      BlamesFirst(t, ids, rows.error);
      return Err(rows.error);
    }
    forall id | id in t.arrival ensures Ordered(t, id) {
      assert id in t.arrival.Keys && id in ids;
    }
    ReportsIds(t, ids, rows.value);
    var _, prefill := Extremes(Waits(t), ids);
    WaitsGreatest(t, prefill);
    var firstToken, _ := Extremes(t.first, ids);
    var _, lastFinish := Extremes(t.finished, ids);
    return Ok(Metrics(rows.value, prefill, lastFinish - firstToken));
  }

  lemma BlamesFirst(t: Timeline, ids: seq<int>, e: TimelineError)
    requires Covered(t) && Increasing(ids) && Lists(ids, t.arrival.Keys)
    requires exists i :: 0 <= i < |ids| && ids[i] in t.arrival && Offends(t, ids[i], e) && forall k :: 0 <= k < i ==> ids[k] in t.arrival && Ordered(t, ids[k])
    ensures exists id :: FirstOffends(t, id, e)
  {
    hide Offends, Ordered;
    var i :| 0 <= i < |ids| && ids[i] in t.arrival && Offends(t, ids[i], e) && forall k :: 0 <= k < i ==> ids[k] in t.arrival && Ordered(t, ids[k]);
    forall x | x in t.arrival && x < ids[i] ensures Ordered(t, x) {
      assert x in t.arrival.Keys && x in ids;
      var k :| 0 <= k < |ids| && ids[k] == x;
    }
    assert FirstOffends(t, ids[i], e);
  }

  lemma NonemptyIds(keys: set<int>, ids: seq<int>)
    requires keys != {} && Lists(ids, keys)
    ensures ids != []
  {
    var x := SomeMember(keys);
  }

  lemma ReportsIds(t: Timeline, ids: seq<int>, rows: seq<Row>)
    requires Covered(t) && Increasing(ids) && Lists(ids, t.arrival.Keys)
    requires |rows| == |ids| && forall i :: 0 <= i < |ids| ==> rows[i] == RowOf(t, ids[i])
    ensures Reports(t, rows)
  {
    hide Times, RowOf, Covered, Covers;
    forall i | 0 <= i < |rows| ensures rows[i].id == ids[i] && rows[i].id in t.arrival && Times(t, rows[i]) {
      assert ids[i] in t.arrival.Keys;
      RowTimes(t, ids[i]);
    }
    forall id | id in t.arrival ensures Covers(rows, id) {
      assert id in t.arrival.Keys;
      RowsCover(ids, rows, id);
    }
  }

  lemma RowsCover(ids: seq<int>, rows: seq<Row>, id: int)
    requires id in ids && |rows| == |ids| && forall i :: 0 <= i < |rows| ==> rows[i].id == ids[i]
    ensures Covers(rows, id)
  {
    var i :| 0 <= i < |ids| && ids[i] == id;
    assert rows[i].id == id;
  }

  // ---------- batch throughput against request latencies ----------

  /** Tokens after the first, over all requests: what the decode window is charged with. */
  function DecodeTokens(rows: seq<Row>): int {
    if rows == [] then 0 else DecodeTokens(rows[..|rows| - 1]) + rows[|rows| - 1].generated - 1
  }

  /** The sum of 1000 / TPOT over the requests that have one. */
  ghost function RequestRates(rows: seq<Row>): real
    requires forall i :: 0 <= i < |rows| ==> rows[i].tpotMs.Some? ==> rows[i].tpotMs.value > 0.0
  {
    if rows == [] then 0.0
    else
      var last := rows[|rows| - 1];
      RequestRates(rows[..|rows| - 1]) + (if last.tpotMs.Some? then 1000.0 / last.tpotMs.value else 0.0)
  }

  /** A request's own decode duration fits in the window. */
  lemma WindowContainsRequest(t: Timeline, id: int, least: real, greatest: real)
    requires Sound(t) && id in t.arrival && Least(least, t.first) && Greatest(greatest, t.finished)
    ensures t.finished[id] - t.first[id] <= greatest - least
  {
    assert id in t.first && id in t.finished;
  }

  lemma RateOfRow(tokens: int, decode: real, window: real)
    requires tokens >= 1 && 0.0 < decode <= window
    ensures var tpot := decode * 1000.0 / tokens as real;
            tpot > 0.0 && tokens as real / window <= 1000.0 / tpot
  {
    var n, tpot := tokens as real, decode * 1000.0 / tokens as real;
    assert tpot * n == decode * 1000.0;
    assert tpot > 0.0;
    var rate := 1000.0 / tpot;
    assert rate * tpot == 1000.0;
    assert (rate * decode - n) * tpot == 0.0 by {
      assert rate * decode * tpot == (rate * tpot) * decode;
    }
    assert rate * decode == n;
    assert rate > 0.0;
    assert rate * window >= rate * decode;
    DivideBound(n, rate, window);
  }

  lemma DivideBound(n: real, rate: real, window: real)
    requires window > 0.0 && n <= rate * window
    ensures n / window <= rate
  {
    var q := n / window;
    assert q * window == n;
    assert (rate - q) * window >= 0.0;
  }

  /** The rows' token rate over the window never exceeds the sum of the requests' own rates. */
  lemma {:induction false} RowsBounded(t: Timeline, rows: seq<Row>, window: real)
    requires Sound(t) && window > 0.0
    requires forall i :: 0 <= i < |rows| ==>
      rows[i].id in t.arrival && rows[i] == RowOf(t, rows[i].id) && t.finished[rows[i].id] - t.first[rows[i].id] <= window
    ensures forall i :: 0 <= i < |rows| ==> rows[i].tpotMs.Some? ==> rows[i].tpotMs.value > 0.0
    ensures DecodeTokens(rows) as real / window <= RequestRates(rows) && DecodeTokens(rows) >= 0
  {
    if rows != [] {
      var front, last := rows[..|rows| - 1], rows[|rows| - 1];
      RowsBounded(t, front, window);
      assert Ordered(t, last.id);
      var g, decode := last.generated, t.finished[last.id] - t.first[last.id];
      if g > 1 {
        RateOfRow(g - 1, decode, window);
        SplitQuotient(DecodeTokens(front), g - 1, window);
      }
    }
  }

  lemma SplitQuotient(a: int, b: int, window: real)
    requires window > 0.0
    ensures (a + b) as real / window == a as real / window + b as real / window
  {
  }

  /**
   For every sound timeline whose rows Measure reports: the batch decode throughput, remaining
   output tokens over the decode window, is at most the sum over multi-token requests of 1000/TPOT.
   */
  lemma BatchThroughputBound(t: Timeline, rows: seq<Row>, least: real, greatest: real)
    requires Sound(t) && Least(least, t.first) && Greatest(greatest, t.finished)
    requires forall i :: 0 <= i < |rows| ==> rows[i].id in t.arrival && rows[i] == RowOf(t, rows[i].id)
    requires DecodeTokens(rows) > 0
    ensures greatest - least > 0.0
    ensures forall i :: 0 <= i < |rows| ==> rows[i].tpotMs.Some? ==> rows[i].tpotMs.value > 0.0
    ensures DecodeTokens(rows) as real / (greatest - least) <= RequestRates(rows)
  {
    hide RequestRates, RowOf;
    var k := SomeMultiToken(t, rows);
    WindowContainsRequest(t, rows[k].id, least, greatest);
    forall i | 0 <= i < |rows| ensures t.finished[rows[i].id] - t.first[rows[i].id] <= greatest - least {
      WindowContainsRequest(t, rows[i].id, least, greatest);
    }
    RowsBounded(t, rows, greatest - least);
  }

  lemma {:induction false} SomeMultiToken(t: Timeline, rows: seq<Row>) returns (k: nat)
    requires Sound(t) && DecodeTokens(rows) > 0
    requires forall i :: 0 <= i < |rows| ==> rows[i].id in t.arrival && rows[i] == RowOf(t, rows[i].id)
    ensures k < |rows| && t.first[rows[k].id] < t.finished[rows[k].id]
  {
    var last := rows[|rows| - 1];
    assert Ordered(t, last.id);
    if last.generated > 1 {
      k := |rows| - 1;
    } else {
      k := SomeMultiToken(t, rows[..|rows| - 1]);
    }
  }

  // ---------- consistency of the reported rows ----------

  /** Latency is TTFT plus one TPOT per token after the first, which is what pooling the rows demands again. */
  lemma LatencySplits(t: Timeline, id: int)
    requires Sound(t) && id in t.arrival
    ensures var row := RowOf(t, id);
      && (row.tpotMs.Some? <==> row.generated > 1)
      && (row.tpotMs.Some? ==> row.latencyMs == row.ttftMs + row.tpotMs.value * (row.generated - 1) as real)
  {
    assert Ordered(t, id);
    if t.generated[id] > 1 {
      var n := (t.generated[id] - 1) as real;
      var decode := (t.finished[id] - t.first[id]) * 1000.0;
      assert (decode / n) * n == decode;
    }
  }

  // ---------- the event-window report ----------

  datatype EventError = BadPrefill | TooFewTokens | NoDecodeWindow

  /** Batch decode throughput: the tokens that remain after one per request, over the decode window. */
  function EventRate(totalInput: int, totalOutput: int, requests: int, prefillElapsed: real, decodeElapsed: real): Result<Option<real>, EventError> {
    if totalInput <= 0 || requests <= 0 || prefillElapsed <= 0.0 then Err(BadPrefill)
    else
      var tokens := totalOutput - requests;
      if tokens < 0 then Err(TooFewTokens)
      else if tokens == 0 then Ok(None)
      else if decodeElapsed <= 0.0 then Err(NoDecodeWindow)
      else Ok(Some(tokens as real / decodeElapsed))
  }

  /** The rate exists exactly for positive inputs, enough tokens and, where tokens remain, a decode window. */
  lemma EventRateExactly(totalInput: int, totalOutput: int, requests: int, prefillElapsed: real, decodeElapsed: real)
    ensures var r := EventRate(totalInput, totalOutput, requests, prefillElapsed, decodeElapsed);
      && (r == Err(BadPrefill) <==> totalInput <= 0 || requests <= 0 || prefillElapsed <= 0.0)
      && (r == Err(TooFewTokens) <==> r != Err(BadPrefill) && totalOutput < requests)
      && (r == Err(NoDecodeWindow) <==> r != Err(BadPrefill) && totalOutput > requests && decodeElapsed <= 0.0)
      && (r.Ok? ==> (r.value.Some? <==> totalOutput > requests))
      && (r.Ok? && r.value.Some? ==> decodeElapsed > 0.0 && r.value.value * decodeElapsed == (totalOutput - requests) as real)
  {
    if decodeElapsed > 0.0 {
      QuotientTimes((totalOutput - requests) as real, decodeElapsed);
    }
  }

  lemma {:induction false} SomeTokensRemain(rows: seq<Row>)
    requires forall i :: 0 <= i < |rows| ==> rows[i].generated >= 1
    ensures DecodeTokens(rows) >= 0
    ensures DecodeTokens(rows) > 0 <==> exists i :: 0 <= i < |rows| && rows[i].generated > 1
  {
    if rows != [] {
      SomeTokensRemain(rows[..|rows| - 1]);
    }
  }

  function TotalOutput(rows: seq<Row>): int {
    if rows == [] then 0 else TotalOutput(rows[..|rows| - 1]) + rows[|rows| - 1].generated
  }

  lemma {:induction false} DecodeTokensAreTheRest(rows: seq<Row>)
    ensures DecodeTokens(rows) == TotalOutput(rows) - |rows|
  {
    if rows != [] {
      DecodeTokensAreTheRest(rows[..|rows| - 1]);
    }
  }

  lemma ReportedRows(t: Timeline, rows: seq<Row>)
    requires Sound(t) && Reports(t, rows)
    ensures forall i :: 0 <= i < |rows| ==> rows[i].id in t.arrival && rows[i] == RowOf(t, rows[i].id) && rows[i].generated >= 1
  {
    forall i | 0 <= i < |rows| ensures rows[i].generated >= 1 {
      assert Ordered(t, rows[i].id);
    }
  }

  /**
   End to end, for every sound timeline: the event window never fails for want of decode time, and
   a reported batch rate is at most the sum of the multi-token requests' own rates.
   */
  lemma ReportedRateIsBounded(t: Timeline, m: Metrics, totalInput: int)
    requires Sound(t) && Reports(t, m.rows) && IsDecodeWindow(t, m.decodeElapsed)
    requires totalInput > 0 && m.prefillElapsed > 0.0 && m.rows != []
    ensures forall i :: 0 <= i < |m.rows| ==> m.rows[i].tpotMs.Some? ==> m.rows[i].tpotMs.value > 0.0
    ensures var r := EventRate(totalInput, TotalOutput(m.rows), |m.rows|, m.prefillElapsed, m.decodeElapsed);
      && r.Ok? && (r.value.Some? ==> r.value.value <= RequestRates(m.rows))
      && (r.value.Some? <==> exists i :: 0 <= i < |m.rows| && m.rows[i].generated > 1)
      && (r.value.Some? ==> r.value.value * m.decodeElapsed == (TotalOutput(m.rows) - |m.rows|) as real)
  {
    hide RequestRates, RowOf, DecodeTokens, TotalOutput, Times, Reports, Ordered;
    DecodeTokensAreTheRest(m.rows);
    ReportedRows(t, m.rows);
    SomeTokensRemain(m.rows);
    EventRateExactly(totalInput, TotalOutput(m.rows), |m.rows|, m.prefillElapsed, m.decodeElapsed);
    var least, greatest :| Least(least, t.first) && Greatest(greatest, t.finished) && m.decodeElapsed == greatest - least;
    if DecodeTokens(m.rows) > 0 {
      BatchThroughputBound(t, m.rows, least, greatest);
    } else {
      RatesPositive(t, m.rows);
    }
  }

  lemma RatesPositive(t: Timeline, rows: seq<Row>)
    requires Sound(t) && forall i :: 0 <= i < |rows| ==> rows[i].id in t.arrival && rows[i] == RowOf(t, rows[i].id)
    ensures forall i :: 0 <= i < |rows| ==> rows[i].tpotMs.Some? ==> rows[i].tpotMs.value > 0.0
  {
    forall i | 0 <= i < |rows| && rows[i].tpotMs.Some? ensures rows[i].tpotMs.value > 0.0 {
      var id := rows[i].id;
      assert Ordered(t, id);
      RateOfRow(rows[i].generated - 1, t.finished[id] - t.first[id], t.finished[id] - t.first[id]);
    }
  }
}

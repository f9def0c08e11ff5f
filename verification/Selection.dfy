/**
 Token-stratified sample selection: one pass over the rows keeps, per bucket, a
 sorted list of at most `samples` candidates.
 */
module Selection {
  import opened Outcomes
  import opened Sorting
  import opened TokenBuckets

  datatype Row = Row(id: string, content: string)

  /** Prompt preparation and the digest of a row id under the seed. */
  datatype Hooks = Hooks(prepare: Row -> (string, seq<int>), digest: string -> string)

  datatype Candidate = Candidate(
    sourceIndex: nat, row: Row, prompt: string, tokenIds: seq<int>, bucket: string, key: string)

  datatype Chosen = Chosen(index: nat, candidate: Candidate)

  datatype SelectionError = Insufficient(bucket: nat, available: nat)

  // ---------- the selection order ----------

  predicate KeyLe(p: (string, string), q: (string, string)) {
    if p.0 != q.0 then StringLe(p.0, q.0) else StringLe(p.1, q.1)
  }

  function KeyOf(x: Candidate): (string, string) { (x.key, x.row.id) }

  predicate CandidateLe(x: Candidate, y: Candidate) { KeyLe(KeyOf(x), KeyOf(y)) }

  lemma KeyLeOrder(p: (string, string), q: (string, string), r: (string, string))
    ensures KeyLe(p, q) || KeyLe(q, p)
    ensures KeyLe(p, q) && KeyLe(q, p) ==> p == q
    ensures KeyLe(p, q) && KeyLe(q, r) ==> KeyLe(p, r)
  {
    StringLeTotal(p.0, q.0);
    StringLeTotal(p.1, q.1);
    StringLeTotal(q.0, r.0);
    if StringLe(p.0, q.0) && StringLe(q.0, r.0) {
      StringLeTransitive(p.0, q.0, r.0);
    }
    if StringLe(p.1, q.1) && StringLe(q.1, r.1) {
      StringLeTransitive(p.1, q.1, r.1);
    }
  }

  lemma OrdersAreTotal()
    ensures TotalPreorder(KeyLe) && TotalPreorder(CandidateLe)
  {
    forall p, q, r ensures (KeyLe(p, q) || KeyLe(q, p)) && (KeyLe(p, q) && KeyLe(q, r) ==> KeyLe(p, r)) {
      KeyLeOrder(p, q, r);
    }
  }

  // ---------- the specification: filter, sort, take ----------

  predicate Falls(h: Hooks, buckets: seq<TokenBucket>, maxTokens: int, row: Row, b: nat)
    requires b < |buckets|
  {
    var n := |h.prepare(row).1|;
    0 < n <= maxTokens && buckets[b].Contains(n) && forall k :: 0 <= k < b ==> !buckets[k].Contains(n)
  }

  function CandidateOf(h: Hooks, row: Row, index: nat, bucket: string): Candidate {
    Candidate(index, row, h.prepare(row).0, h.prepare(row).1, bucket, h.digest(row.id))
  }

  /** The candidates of bucket b in source order. */
  function Eligible(h: Hooks, buckets: seq<TokenBucket>, maxTokens: int, rows: seq<Row>, b: nat): seq<Candidate>
    requires b < |buckets|
  {
    if rows == [] then []
    else
      var n := |rows| - 1;
      Eligible(h, buckets, maxTokens, rows[..n], b)
      + (if Falls(h, buckets, maxTokens, rows[n], b) then [CandidateOf(h, rows[n], n, buckets[b].name)] else [])
  }

  function Kept(h: Hooks, buckets: seq<TokenBucket>, maxTokens: int, rows: seq<Row>, b: nat): seq<Candidate>
    requires b < |buckets| && buckets[b].samples >= 0
  {
    Take(Sort(CandidateLe, Eligible(h, buckets, maxTokens, rows, b)), buckets[b].samples)
  }

  function AllKept(h: Hooks, buckets: seq<TokenBucket>, maxTokens: int, rows: seq<Row>, upTo: nat): seq<Candidate>
    requires upTo <= |buckets| && forall b :: 0 <= b < |buckets| ==> buckets[b].samples >= 0
  {
    if upTo == 0 then [] else AllKept(h, buckets, maxTokens, rows, upTo - 1) + Kept(h, buckets, maxTokens, rows, upTo - 1)
  }

  ghost predicate Filled(h: Hooks, buckets: seq<TokenBucket>, maxTokens: int, rows: seq<Row>, b: nat)
    requires b < |buckets|
  {
    |Eligible(h, buckets, maxTokens, rows, b)| >= buckets[b].samples
  }

  // ---------- the streaming form ----------

  /** Append, sort, drop the last: the same as sorting everything seen and taking the first k. */
  lemma StreamingStep(all: seq<Candidate>, x: Candidate, k: nat)
    ensures var list := Sort(CandidateLe, Take(Sort(CandidateLe, all), k) + [x]);
            (if |list| > k then list[..|list| - 1] else list) == Take(Sort(CandidateLe, all + [x]), k)
  {
    OrdersAreTotal();
    var sorted := Sort(CandidateLe, all);
    var kept := Take(sorted, k);
    SortSorted(CandidateLe, all);
    SortFixed(CandidateLe, kept);
    SortSnoc(CandidateLe, kept, x);
    SortSnoc(CandidateLe, all, x);
    TakeInsert(CandidateLe, sorted, x, k);
  }

  /** The first bucket that contains the length, as `matching[0]`. */
  method FirstMatch(buckets: seq<TokenBucket>, tokens: int) returns (found: Option<nat>)
    ensures found.None? <==> forall b :: 0 <= b < |buckets| ==> !buckets[b].Contains(tokens)
    ensures found.Some? ==>
      && found.value < |buckets| && buckets[found.value].Contains(tokens)
      && forall k :: 0 <= k < found.value ==> !buckets[k].Contains(tokens)
  {
    var b := 0;
    while b < |buckets|
      invariant 0 <= b <= |buckets| && forall k :: 0 <= k < b ==> !buckets[k].Contains(tokens)
    {
      if buckets[b].Contains(tokens) {
        return Some(b);
      }
      b := b + 1;
    }
    return None;
  }

  /**
   The one-pass selection.  It fails exactly at the first bucket that has fewer fitting rows than it needs;
   otherwise it returns, bucket by bucket, exactly the first `samples` of its fitting rows by digest and id.
   */
  method Select(rows: seq<Row>, buckets: seq<TokenBucket>, h: Hooks, maxTokens: int) returns (r: Result<seq<Chosen>, SelectionError>)
    requires Stratified(buckets)
    ensures r.Ok? <==> forall b: nat :: b < |buckets| ==> |FittingRows(h, buckets[b], maxTokens, rows)| >= buckets[b].samples
    ensures r.Err? ==>
      && r.error.bucket < |buckets| && r.error.available == |FittingRows(h, buckets[r.error.bucket], maxTokens, rows)|
      && r.error.available < buckets[r.error.bucket].samples
      && forall k: nat :: k < r.error.bucket ==> |FittingRows(h, buckets[k], maxTokens, rows)| >= buckets[k].samples
    ensures r.Ok? ==> Selects(h, buckets, maxTokens, rows, r.value)
    ensures r.Ok? ==>
      var expected := AllKept(h, buckets, maxTokens, rows, |buckets|);
      |r.value| == |expected| && forall i :: 0 <= i < |expected| ==> r.value[i] == Chosen(i, expected[i])
  {
    hide Kept, Filled, Eligible, AllKept, Streamed, FittingRows, Selects;
    var candidates, counts := Blank(h, buckets, maxTokens);
    assert rows[..0] == [];
    var i := 0;
    while i < |rows|
      invariant 0 <= i <= |rows|
      invariant Streamed(h, buckets, maxTokens, rows[..i], candidates, counts)
    {
      candidates, counts := Offer(h, buckets, maxTokens, rows, i, candidates, counts);
      i := i + 1;
    }
    assert rows[..i] == rows;
    r := Publish(h, buckets, maxTokens, rows, candidates, counts);
    forall b: nat | b < |buckets|
      ensures Filled(h, buckets, maxTokens, rows, b) <==> |FittingRows(h, buckets[b], maxTokens, rows)| >= buckets[b].samples
      ensures |Eligible(h, buckets, maxTokens, rows, b)| == |FittingRows(h, buckets[b], maxTokens, rows)|
    {
      FilledCounts(h, buckets, maxTokens, rows, b);
    }
    if r.Ok? {
      ChosenSelects(h, buckets, maxTokens, rows, r.value);
    }
  }

  method Blank(h: Hooks, buckets: seq<TokenBucket>, maxTokens: int)
    returns (candidates: map<string, seq<Candidate>>, counts: map<string, nat>)
    requires Stratified(buckets)
    ensures Streamed(h, buckets, maxTokens, [], candidates, counts)
  {
    hide Kept, Eligible;
    candidates, counts := map[], map[];
    for i := 0 to |buckets|
      invariant forall b :: 0 <= b < i ==>
        && buckets[b].name in candidates && candidates[buckets[b].name] == []
        && buckets[b].name in counts && counts[buckets[b].name] == 0
    {
      candidates := candidates[buckets[i].name := []];
      counts := counts[buckets[i].name := 0];
    }
    EmptyStart(h, buckets, maxTokens);
  }

  /** The closing loop over the buckets. */
  method Publish(h: Hooks, buckets: seq<TokenBucket>, maxTokens: int, ghost rows: seq<Row>,
                 candidates: map<string, seq<Candidate>>, counts: map<string, nat>)
    returns (r: Result<seq<Chosen>, SelectionError>)
    requires Stratified(buckets) && Streamed(h, buckets, maxTokens, rows, candidates, counts)
    ensures r.Ok? <==> forall b :: 0 <= b < |buckets| ==> Filled(h, buckets, maxTokens, rows, b)
    ensures r.Err? ==>
      && r.error.bucket < |buckets| && !Filled(h, buckets, maxTokens, rows, r.error.bucket)
      && r.error.available == |Eligible(h, buckets, maxTokens, rows, r.error.bucket)|
      && forall k :: 0 <= k < r.error.bucket ==> Filled(h, buckets, maxTokens, rows, k)
    ensures r.Ok? ==>
      var expected := AllKept(h, buckets, maxTokens, rows, |buckets|);
      |r.value| == |expected| && forall i :: 0 <= i < |expected| ==> r.value[i] == Chosen(i, expected[i])
  {
    hide Kept, Filled, Eligible;
    var selected: seq<Candidate> := [];
    var b := 0;
    while b < |buckets|
      invariant 0 <= b <= |buckets|
      invariant selected == AllKept(h, buckets, maxTokens, rows, b)
      invariant forall k :: 0 <= k < b ==> Filled(h, buckets, maxTokens, rows, k)
    {
      FilledMeans(h, buckets, maxTokens, rows, b);
      var available := counts[buckets[b].name];
      if available < buckets[b].samples {
        return Err(Insufficient(b, available));
      }
      selected := selected + candidates[buckets[b].name];
      b := b + 1;
    }
    return Ok(seq(|selected|, k requires 0 <= k < |selected| => Chosen(k, selected[k])));
  }

  lemma FilledMeans(h: Hooks, buckets: seq<TokenBucket>, maxTokens: int, rows: seq<Row>, b: nat)
    requires b < |buckets|
    ensures Filled(h, buckets, maxTokens, rows, b) <==> |Eligible(h, buckets, maxTokens, rows, b)| >= buckets[b].samples
  {
  }

  /** The dictionaries hold, per bucket, what the specification keeps of the rows seen, and their number. */
  ghost predicate Streamed(h: Hooks, buckets: seq<TokenBucket>, maxTokens: int, seen: seq<Row>,
                           candidates: map<string, seq<Candidate>>, counts: map<string, nat>)
    requires Stratified(buckets)
  {
    forall b :: 0 <= b < |buckets| ==>
      && buckets[b].name in candidates && candidates[buckets[b].name] == Kept(h, buckets, maxTokens, seen, b)
      && buckets[b].name in counts && counts[buckets[b].name] == |Eligible(h, buckets, maxTokens, seen, b)|
  }

  lemma EmptyStart(h: Hooks, buckets: seq<TokenBucket>, maxTokens: int)
    requires Stratified(buckets)
    ensures forall b :: 0 <= b < |buckets| ==> Eligible(h, buckets, maxTokens, [], b) == [] && Kept(h, buckets, maxTokens, [], b) == []
  {
  }

  lemma KeptStep(h: Hooks, buckets: seq<TokenBucket>, maxTokens: int, rows: seq<Row>, i: nat, b: nat)
    requires Stratified(buckets) && i < |rows| && b < |buckets|
    ensures !Falls(h, buckets, maxTokens, rows[i], b) ==>
      && Kept(h, buckets, maxTokens, rows[..i + 1], b) == Kept(h, buckets, maxTokens, rows[..i], b)
      && Eligible(h, buckets, maxTokens, rows[..i + 1], b) == Eligible(h, buckets, maxTokens, rows[..i], b)
    ensures Falls(h, buckets, maxTokens, rows[i], b) ==>
      var x := CandidateOf(h, rows[i], i, buckets[b].name);
      var list := Sort(CandidateLe, Kept(h, buckets, maxTokens, rows[..i], b) + [x]);
      && Kept(h, buckets, maxTokens, rows[..i + 1], b) == (if |list| > buckets[b].samples then list[..|list| - 1] else list)
      && |Eligible(h, buckets, maxTokens, rows[..i + 1], b)| == |Eligible(h, buckets, maxTokens, rows[..i], b)| + 1
  {
    hide Falls, Sort, CandidateOf;
    assert rows[..i + 1][..i] == rows[..i];
    var before := Eligible(h, buckets, maxTokens, rows[..i], b);
    assert before + [] == before;
    StreamingStep(before, CandidateOf(h, rows[i], i, buckets[b].name), buckets[b].samples);
  }

  /** One row of the pass. */
  method Offer(h: Hooks, buckets: seq<TokenBucket>, maxTokens: int, rows: seq<Row>, i: nat,
               candidates: map<string, seq<Candidate>>, counts: map<string, nat>)
    returns (candidates': map<string, seq<Candidate>>, counts': map<string, nat>)
    requires Stratified(buckets) && i < |rows| && Streamed(h, buckets, maxTokens, rows[..i], candidates, counts)
    ensures Streamed(h, buckets, maxTokens, rows[..i + 1], candidates', counts')
  {
    hide Sort, Kept, Eligible, CandidateOf;
    forall b | 0 <= b < |buckets| {
      KeptStep(h, buckets, maxTokens, rows, i, b);
    }
    candidates', counts' := candidates, counts;
    var tokens := |h.prepare(rows[i]).1|;
    if tokens <= 0 || tokens > maxTokens {
      return;
    }
    var found := FirstMatch(buckets, tokens);
    if found.None? {
      return;
    }
    var b := found.value;
    var name := buckets[b].name;
    var list := Sort(CandidateLe, candidates'[name] + [CandidateOf(h, rows[i], i, name)]);
    if |list| > buckets[b].samples {
      list := list[..|list| - 1];
    }
    OnlyThisBucket(h, buckets, maxTokens, rows[i], b);
    hide Falls;
    counts' := counts'[name := counts'[name] + 1];
    candidates' := candidates'[name := list];
  }

  lemma OnlyThisBucket(h: Hooks, buckets: seq<TokenBucket>, maxTokens: int, row: Row, b: nat)
    requires b < |buckets| && Falls(h, buckets, maxTokens, row, b)
    ensures forall k :: 0 <= k < |buckets| && k != b ==> !Falls(h, buckets, maxTokens, row, k)
  {
  }

  // ---------- the selection, spelled out ----------

  /** The prompt is usable and its length lies in the bucket. */
  ghost predicate Fits(h: Hooks, bucket: TokenBucket, maxTokens: int, row: Row) {
    var n := |h.prepare(row).1|;
    0 < n <= maxTokens && bucket.minTokens <= n <= bucket.maxTokens
  }

  ghost function FittingRows(h: Hooks, bucket: TokenBucket, maxTokens: int, rows: seq<Row>): set<nat> {
    set n: nat | n < |rows| && Fits(h, bucket, maxTokens, rows[n])
  }

  /** Row m comes before row n: by digest, then by id, then by position. */
  ghost predicate RowBefore(h: Hooks, rows: seq<Row>, m: nat, n: nat)
    requires m < |rows| && n < |rows|
  {
    var x, y := rows[m], rows[n];
    || StringBefore(h.digest(x.id), h.digest(y.id))
    || (h.digest(x.id) == h.digest(y.id) && (StringBefore(x.id, y.id) || (x.id == y.id && m < n)))
  }

  /** The candidate is row n with its own prompt and digest, under the bucket's name. */
  ghost predicate Represents(h: Hooks, bucket: TokenBucket, rows: seq<Row>, x: Candidate, n: nat)
    requires n < |rows|
  {
    && x.sourceIndex == n && x.row == rows[n] && (x.prompt, x.tokenIds) == h.prepare(rows[n])
    && x.bucket == bucket.name && x.key == h.digest(rows[n].id)
  }

  ghost predicate Holds(kept: seq<Candidate>, n: nat) {
    exists k: nat :: k < |kept| && kept[k].sourceIndex == n
  }

  /** A fitting row, as a candidate. */
  ghost predicate Picked(h: Hooks, bucket: TokenBucket, maxTokens: int, rows: seq<Row>, x: Candidate) {
    && x.sourceIndex < |rows| && Fits(h, bucket, maxTokens, rows[x.sourceIndex])
    && Represents(h, bucket, rows, x, x.sourceIndex)
  }

  /** Exactly the first `samples` of the fitting rows, in their order. */
  ghost predicate FirstOf(h: Hooks, bucket: TokenBucket, maxTokens: int, rows: seq<Row>, kept: seq<Candidate>) {
    && |kept| == bucket.samples
    && (forall i: nat :: i < |kept| ==> Picked(h, bucket, maxTokens, rows, kept[i]))
    && (forall i: nat, j: nat :: i < j < |kept| ==> RowBefore(h, rows, kept[i].sourceIndex, kept[j].sourceIndex))
    && (forall i: nat, n: nat :: i < |kept| && n in FittingRows(h, bucket, maxTokens, rows) ==>
          Holds(kept, n) || RowBefore(h, rows, kept[i].sourceIndex, n))
  }

  lemma KeyLeExactly(p: (string, string), q: (string, string))
    ensures KeyLe(p, q) <==> p == q || StringBefore(p.0, q.0) || (p.0 == q.0 && StringBefore(p.1, q.1))
  {
    hide StringLe, StringBefore;
    StringLeExactly(p.0, q.0);
    StringLeExactly(p.1, q.1);
    assert StringBefore(p.0, q.0) ==> p.0 != q.0 by { NeverBeforeItself(p.0); }
  }

  ghost predicate Ahead(x: Candidate, y: Candidate) {
    CandidateLe(x, y) && (KeyOf(x) == KeyOf(y) ==> x.sourceIndex < y.sourceIndex)
  }

  ghost predicate Lined(s: seq<Candidate>) {
    forall i, j :: 0 <= i < j < |s| ==> Ahead(s[i], s[j])
  }

  lemma AheadTransitive(x: Candidate, y: Candidate, z: Candidate)
    ensures Ahead(x, y) && Ahead(y, z) ==> Ahead(x, z)
    ensures CandidateLe(x, y) && x.sourceIndex < y.sourceIndex ==> Ahead(x, y)
    ensures !CandidateLe(x, y) ==> Ahead(y, x)
  {
    hide KeyLe;
    KeyLeOrder(KeyOf(x), KeyOf(y), KeyOf(z));
    KeyLeOrder(KeyOf(y), KeyOf(x), KeyOf(z));
  }

  /** Inserting a later row keeps the list in line: stability decides ties by position. */
  lemma {:induction false} InsertLined(s: seq<Candidate>, x: Candidate)
    requires Lined(s) && forall i :: 0 <= i < |s| ==> s[i].sourceIndex < x.sourceIndex
    ensures Lined(Insert(CandidateLe, s, x))
  {
    hide Ahead, CandidateLe;
    if s != [] {
      var front, last := s[..|s| - 1], s[|s| - 1];
      AheadTransitive(last, x, x);
      if CandidateLe(last, x) {
        forall i | 0 <= i < |s| ensures Ahead(s[i], x) {
          AheadTransitive(s[i], last, x);
        }
      } else {
        InsertLined(front, x);
        var r := Insert(CandidateLe, front, x);
        forall i | 0 <= i < |r| ensures Ahead(r[i], last) {
          assert r[i] in multiset(r);
          assert r[i] == x || r[i] in multiset(front);
        }
      }
    }
  }

  /** The candidates are the fitting rows, once each, and sorting puts them in line. */
  ghost predicate Enlisted(h: Hooks, bucket: TokenBucket, maxTokens: int, rows: seq<Row>, eligible: seq<Candidate>) {
    && (forall x :: x in eligible ==> Picked(h, bucket, maxTokens, rows, x))
    && (forall n :: n in FittingRows(h, bucket, maxTokens, rows) ==> Holds(eligible, n))
    && |eligible| == |FittingRows(h, bucket, maxTokens, rows)| && Lined(Sort(CandidateLe, eligible))
  }

  lemma {:induction false} EligibleRows(h: Hooks, buckets: seq<TokenBucket>, maxTokens: int, rows: seq<Row>, b: nat)
    requires Stratified(buckets) && b < |buckets|
    ensures Enlisted(h, buckets[b], maxTokens, rows, Eligible(h, buckets, maxTokens, rows, b))
  {
    hide Falls, Fits, Enlisted, CandidateOf;
    if rows == [] {
      NothingEnlisted(h, buckets[b], maxTokens);
    } else {
      var n := |rows| - 1;
      EligibleRows(h, buckets, maxTokens, rows[..n], b);
      SameTest(h, buckets, maxTokens, rows[n], b);
      var before := Eligible(h, buckets, maxTokens, rows[..n], b);
      assert before + [] == before;
      EnlistNext(h, buckets[b], maxTokens, rows, n, before);
    }
  }

  lemma NothingEnlisted(h: Hooks, bucket: TokenBucket, maxTokens: int)
    ensures Enlisted(h, bucket, maxTokens, [], [])
  {
    NothingLined();
    assert FittingRows(h, bucket, maxTokens, []) == {};
  }

  lemma EnlistNext(h: Hooks, bucket: TokenBucket, maxTokens: int, rows: seq<Row>, n: nat, before: seq<Candidate>)
    requires n + 1 == |rows| && Enlisted(h, bucket, maxTokens, rows[..n], before)
    ensures Enlisted(h, bucket, maxTokens, rows,
      if Fits(h, bucket, maxTokens, rows[n]) then before + [CandidateOf(h, rows[n], n, bucket.name)] else before)
  {
    hide Fits, Lined, Holds, Picked, Sort, FittingRows, CandidateOf;
    PickedLater(h, bucket, maxTokens, rows, n);
    FittingNext(h, bucket, maxTokens, rows, n);
    if Fits(h, bucket, maxTokens, rows[n]) {
      NewlyEligible(h, bucket, maxTokens, rows, n, before);
      SortSnoc(CandidateLe, before, CandidateOf(h, rows[n], n, bucket.name));
    }
  }

  lemma SameTest(h: Hooks, buckets: seq<TokenBucket>, maxTokens: int, row: Row, b: nat)
    requires Stratified(buckets) && b < |buckets|
    ensures Falls(h, buckets, maxTokens, row, b) <==> Fits(h, buckets[b], maxTokens, row)
  {
    FallsIsContains(h, buckets, maxTokens, row, b);
  }

  lemma NothingLined()
    ensures Lined([]) && Sort(CandidateLe, []) == []
  {
  }

  lemma PickedLater(h: Hooks, bucket: TokenBucket, maxTokens: int, rows: seq<Row>, n: nat)
    requires n < |rows|
    ensures forall x :: Picked(h, bucket, maxTokens, rows[..n], x) ==> Picked(h, bucket, maxTokens, rows, x) && x.sourceIndex < n
  {
    hide Fits;
  }

  lemma FittingNext(h: Hooks, bucket: TokenBucket, maxTokens: int, rows: seq<Row>, n: nat)
    requires n + 1 == |rows|
    ensures var before, all := FittingRows(h, bucket, maxTokens, rows[..n]), FittingRows(h, bucket, maxTokens, rows);
      all == (if Fits(h, bucket, maxTokens, rows[n]) then before + {n} else before) && n !in before
  {
    hide Fits;
  }

  lemma NewlyEligible(h: Hooks, bucket: TokenBucket, maxTokens: int, rows: seq<Row>, n: nat, before: seq<Candidate>)
    requires n < |rows| && Fits(h, bucket, maxTokens, rows[n]) && Lined(Sort(CandidateLe, before))
    requires forall x :: x in before ==> x.sourceIndex < n
    ensures var x := CandidateOf(h, rows[n], n, bucket.name);
      && Picked(h, bucket, maxTokens, rows, x) && Holds(before + [x], n)
      && (forall k :: Holds(before, k) ==> Holds(before + [x], k))
      && Lined(Insert(CandidateLe, Sort(CandidateLe, before), x))
  {
    hide Fits, Lined, Insert, Sort;
    var x := CandidateOf(h, rows[n], n, bucket.name);
    assert (before + [x])[|before|] == x;
    forall k | Holds(before, k) ensures Holds(before + [x], k) {
      var i: nat :| i < |before| && before[i].sourceIndex == k;
      assert (before + [x])[i] == before[i];
    }
    var sorted := Sort(CandidateLe, before);
    forall i | 0 <= i < |sorted| ensures sorted[i].sourceIndex < x.sourceIndex {
      MultisetMember(sorted, before, sorted[i]);
    }
    InsertLined(sorted, x);
  }

  lemma AheadIsRowBefore(h: Hooks, bucket: TokenBucket, maxTokens: int, rows: seq<Row>, x: Candidate, y: Candidate)
    requires Picked(h, bucket, maxTokens, rows, x) && Picked(h, bucket, maxTokens, rows, y)
    ensures Ahead(x, y) ==> RowBefore(h, rows, x.sourceIndex, y.sourceIndex)
  {
    hide KeyLe, StringBefore, Fits;
    KeyLeExactly(KeyOf(x), KeyOf(y));
  }

  /** What a filled bucket keeps is exactly the first of its fitting rows. */
  lemma KeptIsFirst(h: Hooks, buckets: seq<TokenBucket>, maxTokens: int, rows: seq<Row>, b: nat)
    requires Stratified(buckets) && b < |buckets| && Filled(h, buckets, maxTokens, rows, b)
    ensures FirstOf(h, buckets[b], maxTokens, rows, Kept(h, buckets, maxTokens, rows, b))
  {
    hide Eligible, Ahead, CandidateLe, Sort, Picked, RowBefore, FittingRows;
    EligibleRows(h, buckets, maxTokens, rows, b);
    var eligible, kept := Eligible(h, buckets, maxTokens, rows, b), Kept(h, buckets, maxTokens, rows, b);
    var sorted := Sort(CandidateLe, eligible);
    forall i: nat | i < |sorted| ensures Picked(h, buckets[b], maxTokens, rows, sorted[i]) {
      MultisetMember(sorted, eligible, sorted[i]);
    }
    assert Lined(sorted);
    SourceInRange(h, buckets[b], maxTokens, rows, sorted);
    forall i: nat, j: nat | i < j < |sorted| ensures RowBefore(h, rows, sorted[i].sourceIndex, sorted[j].sourceIndex) {
      AheadIsRowBefore(h, buckets[b], maxTokens, rows, sorted[i], sorted[j]);
    }
    forall i: nat, n: nat | i < |kept| && n in FittingRows(h, buckets[b], maxTokens, rows)
      ensures n < |rows| && (Holds(kept, n) || RowBefore(h, rows, kept[i].sourceIndex, n))
    {
      var k: nat :| k < |eligible| && eligible[k].sourceIndex == n;
      MultisetMember(sorted, eligible, eligible[k]);
      var j: nat :| j < |sorted| && sorted[j] == eligible[k];
      assert j < |kept| ==> kept[j].sourceIndex == n;
    }
  }

  lemma SourceInRange(h: Hooks, bucket: TokenBucket, maxTokens: int, rows: seq<Row>, s: seq<Candidate>)
    requires forall i: nat :: i < |s| ==> Picked(h, bucket, maxTokens, rows, s[i])
    ensures forall i: nat :: i < |s| ==> s[i].sourceIndex < |rows|
  {
    hide Fits;
  }

  /** Bucket after bucket, the first of the fitting rows; positions count through. */
  ghost predicate Selects(h: Hooks, buckets: seq<TokenBucket>, maxTokens: int, rows: seq<Row>, chosen: seq<Chosen>) {
    exists parts: seq<seq<Candidate>> ::
      && |parts| == |buckets| && (forall b: nat :: b < |buckets| ==> FirstOf(h, buckets[b], maxTokens, rows, parts[b]))
      && |chosen| == |Concat(parts)| && forall i: nat :: i < |chosen| ==> chosen[i] == Chosen(i, Concat(parts)[i])
  }

  lemma {:induction false} AllKeptParts(h: Hooks, buckets: seq<TokenBucket>, maxTokens: int, rows: seq<Row>, upTo: nat) returns (parts: seq<seq<Candidate>>)
    requires Stratified(buckets) && upTo <= |buckets|
    ensures |parts| == upTo && Concat(parts) == AllKept(h, buckets, maxTokens, rows, upTo)
    ensures forall b: nat :: b < upTo ==> parts[b] == Kept(h, buckets, maxTokens, rows, b)
  {
    hide Kept;
    if upTo == 0 {
      parts := [];
    } else {
      var front := AllKeptParts(h, buckets, maxTokens, rows, upTo - 1);
      parts := front + [Kept(h, buckets, maxTokens, rows, upTo - 1)];
      ConcatSnoc(front, Kept(h, buckets, maxTokens, rows, upTo - 1));
    }
  }

  lemma ChosenSelects(h: Hooks, buckets: seq<TokenBucket>, maxTokens: int, rows: seq<Row>, chosen: seq<Chosen>)
    requires Stratified(buckets) && forall b :: 0 <= b < |buckets| ==> Filled(h, buckets, maxTokens, rows, b)
    requires var expected := AllKept(h, buckets, maxTokens, rows, |buckets|);
      |chosen| == |expected| && forall i :: 0 <= i < |expected| ==> chosen[i] == Chosen(i, expected[i])
    ensures Selects(h, buckets, maxTokens, rows, chosen)
  {
    hide Kept, FirstOf, Filled, AllKept;
    var parts := AllKeptParts(h, buckets, maxTokens, rows, |buckets|);
    forall b: nat | b < |buckets| ensures FirstOf(h, buckets[b], maxTokens, rows, parts[b]) {
      KeptIsFirst(h, buckets, maxTokens, rows, b);
    }
  }

  lemma FilledCounts(h: Hooks, buckets: seq<TokenBucket>, maxTokens: int, rows: seq<Row>, b: nat)
    requires Stratified(buckets) && b < |buckets|
    ensures |Eligible(h, buckets, maxTokens, rows, b)| == |FittingRows(h, buckets[b], maxTokens, rows)|
    ensures Filled(h, buckets, maxTokens, rows, b) <==> |FittingRows(h, buckets[b], maxTokens, rows)| >= buckets[b].samples
  {
    hide Eligible, FittingRows, Sort, Lined, Holds, Picked;
    EligibleRows(h, buckets, maxTokens, rows, b);
  }

  // ---------- independence of the input order ----------

  /** The (digest, id) pair of a row that falls into bucket b. */
  function FallingKey(h: Hooks, buckets: seq<TokenBucket>, maxTokens: int, b: nat): Row -> seq<(string, string)>
    requires b < |buckets|
  {
    (row: Row) => if b < |buckets| && Falls(h, buckets, maxTokens, row, b) then [(h.digest(row.id), row.id)] else []
  }

  function FallingKeys(h: Hooks, buckets: seq<TokenBucket>, maxTokens: int, rows: seq<Row>, b: nat): seq<(string, string)>
    requires b < |buckets|
  {
    Flat(FallingKey(h, buckets, maxTokens, b), rows)
  }

  lemma {:induction false} EligibleKeys(h: Hooks, buckets: seq<TokenBucket>, maxTokens: int, rows: seq<Row>, b: nat)
    requires b < |buckets|
    ensures Map(KeyOf, Eligible(h, buckets, maxTokens, rows, b)) == FallingKeys(h, buckets, maxTokens, rows, b)
  {
    hide Falls;
    if rows != [] {
      EligibleKeys(h, buckets, maxTokens, rows[..|rows| - 1], b);
    }
  }

  /** Per bucket, the kept (digest, id) pairs depend only on which rows there are. */
  lemma KeptKeysPermute(h: Hooks, buckets: seq<TokenBucket>, maxTokens: int, rows: seq<Row>, rows': seq<Row>, b: nat)
    requires b < |buckets| && buckets[b].samples >= 0 && multiset(rows) == multiset(rows')
    ensures Map(KeyOf, Kept(h, buckets, maxTokens, rows, b)) == Map(KeyOf, Kept(h, buckets, maxTokens, rows', b))
    ensures |Eligible(h, buckets, maxTokens, rows, b)| == |Eligible(h, buckets, maxTokens, rows', b)|
  {
    hide Eligible, Sort, Kept, FallingKey;
    KeptKeys(h, buckets, maxTokens, rows, b);
    KeptKeys(h, buckets, maxTokens, rows', b);
    assert multiset(FallingKeys(h, buckets, maxTokens, rows, b)) == multiset(FallingKeys(h, buckets, maxTokens, rows', b)) by {
      FlatPermute(FallingKey(h, buckets, maxTokens, b), rows, rows');
    }
    SameSort(FallingKeys(h, buckets, maxTokens, rows, b), FallingKeys(h, buckets, maxTokens, rows', b));
  }

  lemma KeptKeys(h: Hooks, buckets: seq<TokenBucket>, maxTokens: int, rows: seq<Row>, b: nat)
    requires b < |buckets| && buckets[b].samples >= 0
    ensures Map(KeyOf, Kept(h, buckets, maxTokens, rows, b))
         == Take(Sort(KeyLe, FallingKeys(h, buckets, maxTokens, rows, b)), buckets[b].samples)
    ensures |Eligible(h, buckets, maxTokens, rows, b)| == |FallingKeys(h, buckets, maxTokens, rows, b)|
  {
    hide FallingKeys, Eligible, Sort, KeyLe;
    EligibleKeys(h, buckets, maxTokens, rows, b);
    SortMap(CandidateLe, KeyLe, KeyOf, Eligible(h, buckets, maxTokens, rows, b));
    var sorted := Sort(CandidateLe, Eligible(h, buckets, maxTokens, rows, b));
    assert Map(KeyOf, Take(sorted, buckets[b].samples)) == Take(Map(KeyOf, sorted), buckets[b].samples);
  }

  lemma SameSort(a: seq<(string, string)>, b: seq<(string, string)>)
    requires multiset(a) == multiset(b)
    ensures Sort(KeyLe, a) == Sort(KeyLe, b) && |a| == |b|
  {
    hide KeyLe, Sort;
    OrdersAreTotal();
    SortSorted(KeyLe, a);
    SortSorted(KeyLe, b);
    var s := Sort(KeyLe, a);
    assert |a| == |multiset(a)| == |multiset(b)| == |b|;
    forall i, j | 0 <= i < |s| && 0 <= j < |s| && KeyLe(s[i], s[j]) && KeyLe(s[j], s[i]) ensures s[i] == s[j] {
      KeyLeOrder(s[i], s[j], s[i]);
    }
    SortedUnique(KeyLe, s, Sort(KeyLe, b));
  }

  /** The selected (digest, id) sequence is the same for every order of the input rows. */
  lemma {:induction false} SelectionIgnoresOrder(h: Hooks, buckets: seq<TokenBucket>, maxTokens: int, rows: seq<Row>, rows': seq<Row>, upTo: nat)
    requires Stratified(buckets) && upTo <= |buckets| && multiset(rows) == multiset(rows')
    ensures Map(KeyOf, AllKept(h, buckets, maxTokens, rows, upTo)) == Map(KeyOf, AllKept(h, buckets, maxTokens, rows', upTo))
    ensures forall b :: 0 <= b < upTo ==> (Filled(h, buckets, maxTokens, rows, b) <==> Filled(h, buckets, maxTokens, rows', b))
  {
    hide Kept, Eligible;
    if upTo > 0 {
      SelectionIgnoresOrder(h, buckets, maxTokens, rows, rows', upTo - 1);
      KeptKeysPermute(h, buckets, maxTokens, rows, rows', upTo - 1);
      MapAppend(KeyOf, AllKept(h, buckets, maxTokens, rows, upTo - 1), Kept(h, buckets, maxTokens, rows, upTo - 1));
      MapAppend(KeyOf, AllKept(h, buckets, maxTokens, rows', upTo - 1), Kept(h, buckets, maxTokens, rows', upTo - 1));
    }
  }

  lemma MapAppend<S, T>(f: S -> T, a: seq<S>, b: seq<S>)
    ensures Map(f, a + b) == Map(f, a) + Map(f, b)
  {
  }

  /** With accepted buckets, "first matching bucket" is "the bucket that contains the length". */
  lemma FallsIsContains(h: Hooks, buckets: seq<TokenBucket>, maxTokens: int, row: Row, b: nat)
    requires Stratified(buckets) && b < |buckets|
    ensures Falls(h, buckets, maxTokens, row, b) <==>
              0 < |h.prepare(row).1| <= maxTokens && buckets[b].Contains(|h.prepare(row).1|)
  {
    var n := |h.prepare(row).1|;
    if buckets[b].Contains(n) {
      forall k | 0 <= k < b ensures !buckets[k].Contains(n) {
        OneBucket(buckets, n, b, k);
      }
    }
  }
}
